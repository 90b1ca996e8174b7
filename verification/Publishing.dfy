/** The publish log: every attempt of every node is announced on the stream at
    most once, and exactly once as long as no publisher dies in its loop. */
module Publishing {
  import opened Graph
  import opened Model
  import opened Transactions
  import opened Invariants
  import opened Protocol

  function OwedBy(task: Task, job: Job): nat {
    if task.Finishing? then multiset(task.owed)[job] else 0
  }

  /** How many live publishers still owe `job`, with multiplicity. */
  function Owed(tasks: seq<Task>, job: Job): nat {
    if tasks == [] then 0 else Owed(tasks[..|tasks| - 1], job) + OwedBy(tasks[|tasks| - 1], job)
  }

  /** How many stream entries carry `job`. */
  function Published(stream: seq<Message>, job: Job): nat {
    if stream == [] then 0
    else Published(stream[..|stream| - 1], job) + if stream[|stream| - 1].job == job then 1 else 0
  }

  function Issued(s: System, job: Job): nat {
    Published(s.stream, job) + Owed(s.tasks, job)
  }

  /** A job is due once for every attempt its node has begun. */
  function Due(rows: map<NodeId, NodeRow>, job: Job): nat {
    if job.node in rows && 1 <= job.attempt <= rows[job.node].attempt then 1 else 0
  }

  ghost predicate IssuedAtMostOnce(s: System) {
    forall job :: Issued(s, job) <= Due(s.db.rows, job)
  }

  ghost predicate IssuedExactly(s: System) {
    forall job :: Issued(s, job) == Due(s.db.rows, job)
  }

  // ----- counting over tasks and stream -----

  lemma OwedAppend(tasks: seq<Task>, task: Task, job: Job)
    ensures Owed(tasks + [task], job) == Owed(tasks, job) + OwedBy(task, job)
  {
  }

  lemma {:induction false} OwedUpdate(tasks: seq<Task>, t: nat, task: Task, job: Job)
    requires t < |tasks|
    ensures Owed(tasks[t := task], job) + OwedBy(tasks[t], job) == Owed(tasks, job) + OwedBy(task, job)
    decreases |tasks|
  {
    var front := tasks[..|tasks| - 1];
    if t == |tasks| - 1 {
      assert tasks[t := task][..|tasks| - 1] == front;
    } else {
      OwedUpdate(front, t, task, job);
      assert tasks[t := task][..|tasks| - 1] == front[t := task];
    }
  }

  lemma {:induction false} PublishedIgnoresDelivery(stream: seq<Message>, other: seq<Message>, job: Job)
    requires |stream| == |other| && forall m :: 0 <= m < |stream| ==> stream[m].job == other[m].job
    ensures Published(stream, job) == Published(other, job)
    decreases |stream|
  {
    if stream != [] {
      PublishedIgnoresDelivery(stream[..|stream| - 1], other[..|other| - 1], job);
    }
  }

  lemma PublishedAppend(stream: seq<Message>, m: Message, job: Job)
    ensures Published(stream + [m], job) == Published(stream, job) + if m.job == job then 1 else 0
  {
  }

  lemma {:induction false} PublishedIsInStream(stream: seq<Message>, job: Job)
    ensures Published(stream, job) > 0 <==> exists m :: 0 <= m < |stream| && stream[m].job == job
    decreases |stream|
  {
    if stream != [] {
      PublishedIsInStream(stream[..|stream| - 1], job);
    }
  }

  /** Two different entries with the same job count twice. */
  lemma {:induction false} PublishedTwice(stream: seq<Message>, a: nat, b: nat)
    requires a < b < |stream| && stream[a].job == stream[b].job
    ensures Published(stream, stream[a].job) >= 2
    decreases |stream|
  {
    var front := stream[..|stream| - 1];
    if b < |stream| - 1 {
      PublishedTwice(front, a, b);
    } else {
      PublishedIsInStream(front, stream[a].job);
      assert front[a].job == stream[a].job;
    }
  }

  // ----- what becomes due -----

  /** Completion makes due exactly the jobs it owes. */
  lemma CompleteDue(w: Workflow, db: Db, n: NodeId, outcome: Outcome, job: Job)
    requires IsNode(w, n)
    ensures Due(Complete(w, db, n, outcome).rows, job) ==
            Due(db.rows, job) + if job in OwedAfter(w, db, n, outcome) then 1 else 0
  {
    if HasStatus(db.rows, n, RUNNING) && outcome.Success? {
      SucceedDue(w, db, n, outcome.output, job);
    }
  }

  lemma SucceedDue(w: Workflow, db: Db, n: NodeId, output: Payload, job: Job)
    requires IsNode(w, n) && HasStatus(db.rows, n, RUNNING)
    ensures Due(RowsAfterSuccess(w, db.rows, n, output), job) ==
            Due(db.rows, job) + if job in OwedAfter(w, db, n, Success(output)) then 1 else 0
  {
    OwedAfterSuccess(w, db, n, output, job);
    if job.node in db.rows {
      AttemptAfterSuccess(w, db.rows, n, output, job.node);
    } else {
      SuccessEffect(w, db.rows, n, output);
    }
  }

  lemma OwedAfterSuccess(w: Workflow, db: Db, n: NodeId, output: Payload, job: Job)
    requires IsNode(w, n) && HasStatus(db.rows, n, RUNNING)
    ensures job in OwedAfter(w, db, n, Success(output)) <==>
      job.node in db.rows && ReleasedBy(w, db.rows, n, output, job.node) && job.attempt == db.rows[job.node].attempt + 1
  {
  }

  lemma AttemptAfterSuccess(w: Workflow, rows: map<NodeId, NodeRow>, n: NodeId, output: Payload, x: NodeId)
    requires IsNode(w, n) && HasStatus(rows, n, RUNNING) && x in rows
    ensures
      var after := RowsAfterSuccess(w, rows, n, output);
      x in after && after[x].attempt == rows[x].attempt + if ReleasedBy(w, rows, n, output, x) then 1 else 0
  {
  }

  lemma DistinctCount(jobs: seq<Job>, owed: set<Job>, job: Job)
    requires Lists(jobs, owed)
    ensures multiset(jobs)[job] == if job in owed then 1 else 0
  {
    if job in owed {
      assert job in jobs;
      DistinctOnce(jobs, job);
    } else {
      assert job !in jobs;
      assert job !in multiset(jobs);
    }
  }

  /** A publisher dies, or raises, before its publish loop is done. */
  ghost predicate LosesOwed(s: System, step: Step) {
    step.Crash? && step.task < |s.tasks| && s.tasks[step.task].Finishing? && s.tasks[step.task].owed != []
  }

  lemma StreamKeepsPublished(w: Workflow, s: System, step: Step, job: Job)
    requires Enabled(w, s, step)
    ensures Published(NextStream(w, s, step), job) ==
            Published(s.stream, job) + if step.PublishStep? && s.tasks[step.task].owed[0] == job then 1 else 0
  {
    if step.PublishStep? {
      PublishedAppend(s.stream, Message(s.tasks[step.task].owed[0], Undelivered), job);
    } else {
      PublishedIgnoresDelivery(s.stream, NextStream(w, s, step), job);
    }
  }

  /** Owed jobs before and after a step: completion and manual retry add, publishing and crashing remove. */
  lemma TasksOwedAfter(w: Workflow, s: System, step: Step, job: Job)
    requires Enabled(w, s, step)
    ensures Actor(step).Some? ==>
      Owed(NextTasks(w, s, step), job) + OwedBy(s.tasks[Actor(step).value], job) ==
      Owed(s.tasks, job) + OwedBy(NextTask(w, s, step), job)
    ensures Actor(step).None? ==>
      Owed(NextTasks(w, s, step), job) ==
      Owed(s.tasks, job) + if step.RetryStep? && job == Job(step.node, s.db.rows[step.node].attempt + 1) then 1 else 0
  {
    match step
    case Deliver(m) => OwedAppend(s.tasks, Claiming(m), job);
    case Reclaim(m) => OwedAppend(s.tasks, Recovering(m), job);
    case RetryStep(n) => OwedAppend(s.tasks, Finishing(None, [Job(n, s.db.rows[n].attempt + 1)]), job);
    case ResolveStep(_) =>
    case _ => OwedUpdate(s.tasks, Actor(step).value, NextTask(w, s, step), job);
  }

  lemma OwnStepOwes(w: Workflow, s: System, step: Step, job: Job)
    requires Enabled(w, s, step) && Actor(step).Some?
    ensures
      var before, after := OwedBy(s.tasks[Actor(step).value], job), OwedBy(NextTask(w, s, step), job);
      match step
      case CompleteStep(t, outcome, _) =>
        before == 0 && after == if job in OwedAfter(w, s.db, NodeOf(s, s.tasks[t].msg), outcome) then 1 else 0
      case PublishStep(t) => before == after + if job == s.tasks[t].owed[0] then 1 else 0
      case Crash(t) => after == 0 && (!LosesOwed(s, step) ==> before == 0)
      case _ => after == before == 0
  {
    match step
    case CompleteStep(t, outcome, owed) =>
      DistinctCount(owed, OwedAfter(w, s.db, NodeOf(s, s.tasks[t].msg), outcome), job);
    case PublishStep(t) =>
      var owed := s.tasks[t].owed;
      assert owed == [owed[0]] + owed[1..];
    case _ =>
  }

  /** The balance of issued jobs over one step. */
  lemma StepIssues(w: Workflow, s: System, step: Step, s': System, job: Job)
    requires Enabled(w, s, step)
    requires s'.stream == NextStream(w, s, step) && s'.tasks == NextTasks(w, s, step)
    ensures Issued(s', job) <= Issued(s, job) + Becoming(w, s, step, job)
    ensures !LosesOwed(s, step) ==> Issued(s', job) == Issued(s, job) + Becoming(w, s, step, job)
  {
    StreamKeepsPublished(w, s, step, job);
    TasksOwedAfter(w, s, step, job);
    if Actor(step).Some? { OwnStepOwes(w, s, step, job); }
  }

  /** One if the step makes `job` due. */
  ghost function Becoming(w: Workflow, s: System, step: Step, job: Job): nat
    requires Enabled(w, s, step)
  {
    match step
    case CompleteStep(t, outcome, _) =>
      if job in OwedAfter(w, s.db, NodeOf(s, s.tasks[t].msg), outcome) then 1 else 0
    case RetryStep(n) => if job == Job(n, s.db.rows[n].attempt + 1) then 1 else 0
    case _ => 0
  }

  lemma StepDue(w: Workflow, s: System, step: Step, s': System, job: Job)
    requires StepTo(w, s, step, s')
    ensures Due(s'.db.rows, job) == Due(s.db.rows, job) + Becoming(w, s, step, job)
  {
    match step
    case CompleteStep(t, outcome, _) => CompleteDue(w, s.db, NodeOf(s, s.tasks[t].msg), outcome, job);
    case _ =>
  }

  lemma StepKeepsIssued(w: Workflow, s: System, step: Step, s': System)
    requires StepTo(w, s, step, s')
    ensures IssuedAtMostOnce(s) ==> IssuedAtMostOnce(s')
    ensures IssuedExactly(s) && !LosesOwed(s, step) ==> IssuedExactly(s')
  {
    forall job
      ensures Issued(s, job) <= Due(s.db.rows, job) ==> Issued(s', job) <= Due(s'.db.rows, job)
      ensures !LosesOwed(s, step) && Issued(s, job) == Due(s.db.rows, job) ==> Issued(s', job) == Due(s'.db.rows, job)
    {
      StepDue(w, s, step, s', job);
      StepIssues(w, s, step, s', job);
    }
  }

  lemma InitIssued(w: Workflow, s: System)
    requires Init(w, s)
    ensures IssuedExactly(s)
  {
    var owed := s.tasks[0].owed;
    assert s.tasks[..0] == [];
    forall job ensures Issued(s, job) == Due(s.db.rows, job) {
      assert Owed(s.tasks[..0], job) == 0;
      assert Owed(s.tasks, job) == multiset(owed)[job];
      DistinctCount(owed, RootJobs(w), job);
      assert job in RootJobs(w) <==> IsRoot(w, job.node) && job.attempt == 1;
    }
  }
}
