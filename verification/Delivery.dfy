/** No job is lost: as long as no process dies between a commit and the end of
    its publish loop, and recovery claims no entry from a task still working on
    it, every QUEUED or RUNNING node is covered by an entry or an owed publish. */
module Delivery {
  import opened Graph
  import opened Model
  import opened Transactions
  import opened Invariants
  import opened Protocol
  import opened Publishing

  /** Recovery takes an entry away from a task that is still working on it. */
  ghost predicate Steals(s: System, step: Step) {
    && step.Reclaim? && step.msg < |s.stream|
    && s.stream[step.msg].delivery.Pending?
    && s.stream[step.msg].delivery.owner < |s.tasks|
    && !s.tasks[s.stream[step.msg].delivery.owner].Stopped?
  }

  ghost predicate Careful(s: System, step: Step) {
    !LosesOwed(s, step) && !Steals(s, step)
  }

  ghost predicate CarefulRun(w: Workflow, states: seq<System>, steps: seq<Step>) {
    && Run(w, states, steps)
    && forall i :: 0 <= i < |steps| ==> Careful(states[i], steps[i])
  }

  // ----- ownership -----

  function MsgOf(task: Task): Option<nat> {
    match task
    case Recovering(m) => Some(m)
    case Claiming(m) => Some(m)
    case Reading(m) => Some(m)
    case Executing(m, _) => Some(m)
    case Finishing(src, _) => src
    case Stopped => None
  }

  /** Every live task owns its entry, and an owner is stopped or works on the entry it owns. */
  ghost predicate Ownership(s: System) {
    && (forall t :: 0 <= t < |s.tasks| && MsgOf(s.tasks[t]).Some? ==> OwnsEntry(s, t, MsgOf(s.tasks[t]).value))
    && (forall m :: 0 <= m < |s.stream| && s.stream[m].delivery.Pending? ==> OwnerOk(s, m))
  }

  ghost predicate OwnsEntry(s: System, t: nat, m: nat) {
    m < |s.stream| && s.stream[m].delivery == Pending(t)
  }

  ghost predicate OwnerOk(s: System, m: nat)
    requires m < |s.stream| && s.stream[m].delivery.Pending?
  {
    var o := s.stream[m].delivery.owner;
    o < |s.tasks| && (s.tasks[o].Stopped? || MsgOf(s.tasks[o]) == Some(m))
  }

  lemma OwnMessageKept(w: Workflow, s: System, step: Step)
    requires Enabled(w, s, step) && Actor(step).Some?
    ensures NextTask(w, s, step).Stopped? || MsgOf(NextTask(w, s, step)) == MsgOf(s.tasks[Actor(step).value])
  {
  }

  lemma StepKeepsOwnership(w: Workflow, s: System, step: Step, s': System)
    requires Ownership(s) && Careful(s, step) && Enabled(w, s, step)
    requires s'.stream == NextStream(w, s, step) && s'.tasks == NextTasks(w, s, step)
    ensures Ownership(s')
  {
    if Actor(step).Some? { OwnMessageKept(w, s, step); }
    forall t | 0 <= t < |s'.tasks| && MsgOf(s'.tasks[t]).Some? ensures OwnsEntry(s', t, MsgOf(s'.tasks[t]).value) {
      if t < |s.tasks| {
        assert MsgOf(s'.tasks[t]) == MsgOf(s.tasks[t]);
        assert OwnsEntry(s, t, MsgOf(s.tasks[t]).value);
      }
    }
    forall m | 0 <= m < |s'.stream| && s'.stream[m].delivery.Pending? ensures OwnerOk(s', m) {
      if m < |s.stream| && s.stream[m].delivery == s'.stream[m].delivery { assert OwnerOk(s, m); }
    }
  }

  // ----- phases of an entry -----

  datatype Phase = Waiting | Working | Finished

  /** Waiting: not yet claimed for execution, or abandoned.  Working: between claim and completion. */
  ghost function PhaseOf(s: System, m: nat): Phase
    requires m < |s.stream|
  {
    match s.stream[m].delivery
    case Undelivered => Waiting
    case Acked => Finished
    case Pending(o) =>
      if o >= |s.tasks| then Finished
      else match s.tasks[o]
        case Recovering(_) => Waiting
        case Claiming(_) => Waiting
        case Stopped => Waiting
        case Reading(_) => Working
        case Executing(_, _) => Working
        case Finishing(_, _) => Finished
  }

  /** The entry a step works on. */
  ghost function StepMsg(s: System, step: Step): Option<nat> {
    match step
    case Deliver(m) => Some(m)
    case Reclaim(m) => Some(m)
    case _ =>
      if Actor(step).Some? && Actor(step).value < |s.tasks| then MsgOf(s.tasks[Actor(step).value]) else None
  }

  /** Only the entry of the acting task changes phase. */
  lemma PhaseFrame(w: Workflow, s: System, step: Step, s': System, m: nat)
    requires Ownership(s) && Enabled(w, s, step) && m < |s.stream|
    requires s'.stream == NextStream(w, s, step) && s'.tasks == NextTasks(w, s, step)
    requires StepMsg(s, step) != Some(m)
    ensures m < |s'.stream| && s'.stream[m] == s.stream[m] && PhaseOf(s', m) == PhaseOf(s, m)
  {
    if s.stream[m].delivery.Pending? {
      assert OwnerOk(s, m);
      if Actor(step).Some? && s.stream[m].delivery == Pending(Actor(step).value) {
        assert s.tasks[Actor(step).value].Stopped?;
      }
    }
  }

  /** How the entry of the acting task moves on. */
  lemma OwnPhase(w: Workflow, s: System, step: Step, s': System, m: nat)
    requires Ownership(s) && Enabled(w, s, step) && Careful(s, step)
    requires StepMsg(s, step) == Some(m) && m < |s.stream|
    requires s'.stream == NextStream(w, s, step) && s'.tasks == NextTasks(w, s, step)
    ensures m < |s'.stream| && s'.stream[m].job == s.stream[m].job
    ensures
      var n := NodeOf(s, m);
      var gone := n !in s.db.rows || Terminal(s.db.rows[n].status);
      match step
      case Deliver(_) => PhaseOf(s', m) == Waiting
      case Reclaim(_) => PhaseOf(s', m) == Waiting
      case RevertStep(_) => PhaseOf(s', m) == if gone then Finished else Waiting
      case ClaimStep(_) =>
        PhaseOf(s', m) == if gone then Finished else if s.db.rows[n].status == QUEUED then Working else Waiting
      case ReadStep(_) => PhaseOf(s', m) == Working
      case CompleteStep(_, _, _) => PhaseOf(s, m) == Working
      case PublishStep(_) => PhaseOf(s, m) == Finished
      case AckStep(_) => PhaseOf(s, m) == Finished
      case Crash(_) => PhaseOf(s', m) == Waiting
      case _ => true
  {
    if Actor(step).Some? {
      assert OwnsEntry(s, Actor(step).value, m);
    }
  }

  // ----- coverage -----

  ghost predicate WaitingFor(s: System, m: nat, n: NodeId) {
    m < |s.stream| && NodeOf(s, m) == n && PhaseOf(s, m) == Waiting
  }

  ghost predicate WorkingFor(s: System, m: nat, n: NodeId) {
    m < |s.stream| && NodeOf(s, m) == n && PhaseOf(s, m) == Working
  }

  ghost predicate OwedIn(jobs: seq<Job>, n: NodeId) {
    exists k :: 0 <= k < |jobs| && jobs[k].node == n
  }

  ghost predicate OwesNode(s: System, t: nat, n: NodeId) {
    t < |s.tasks| && s.tasks[t].Finishing? && OwedIn(s.tasks[t].owed, n)
  }

  ghost predicate QueuedCovered(s: System, n: NodeId) {
    (exists m :: WaitingFor(s, m, n)) || (exists t :: OwesNode(s, t, n))
  }

  ghost predicate RunningCovered(s: System, n: NodeId) {
    exists m :: WaitingFor(s, m, n) || WorkingFor(s, m, n)
  }

  /** A QUEUED node has an entry nobody has claimed or finished, or a publisher that
      still owes it; a RUNNING node has an entry nobody has finished. */
  ghost predicate NothingLost(s: System) {
    forall n :: n in s.db.rows ==>
      && (s.db.rows[n].status == QUEUED ==> QueuedCovered(s, n))
      && (s.db.rows[n].status == RUNNING ==> RunningCovered(s, n))
  }

  lemma OwedSplit(jobs: seq<Job>, n: NodeId)
    requires OwedIn(jobs, n)
    ensures jobs[0].node == n || OwedIn(jobs[1..], n)
  {
  }

  /** An owed publish stays owed, or reaches the stream. */
  lemma OwesAfter(w: Workflow, s: System, step: Step, s': System, t: nat, n: NodeId)
    requires OwesNode(s, t, n) && Careful(s, step) && Enabled(w, s, step)
    requires s'.stream == NextStream(w, s, step) && s'.tasks == NextTasks(w, s, step)
    ensures QueuedCovered(s', n)
  {
    if Actor(step) == Some(t) {
      assert step.PublishStep?;
      OwedSplit(s.tasks[t].owed, n);
      if s.tasks[t].owed[0].node == n {
        assert WaitingFor(s', |s.stream|, n);
      } else {
        assert OwesNode(s', t, n);
      }
    } else {
      assert s'.tasks[t] == s.tasks[t];
      assert OwesNode(s', t, n);
    }
  }

  /** A waiting entry keeps waiting, unless its node is claimed or already terminal. */
  lemma WaitingAfter(w: Workflow, s: System, step: Step, s': System, m: nat, n: NodeId)
    requires Ownership(s) && Careful(s, step) && Enabled(w, s, step) && WaitingFor(s, m, n)
    requires s'.stream == NextStream(w, s, step) && s'.tasks == NextTasks(w, s, step)
    requires n in s.db.rows && !Terminal(s.db.rows[n].status)
    ensures WaitingFor(s', m, n) ||
      (step.ClaimStep? && StepMsg(s, step) == Some(m) && s.db.rows[n].status == QUEUED && WorkingFor(s', m, n))
  {
    if StepMsg(s, step) == Some(m) {
      OwnPhase(w, s, step, s', m);
    } else {
      PhaseFrame(w, s, step, s', m);
    }
  }

  lemma WorkingAfter(w: Workflow, s: System, step: Step, s': System, m: nat, n: NodeId)
    requires Ownership(s) && Careful(s, step) && Enabled(w, s, step) && WorkingFor(s, m, n)
    requires s'.stream == NextStream(w, s, step) && s'.tasks == NextTasks(w, s, step)
    requires n in s.db.rows && !Terminal(s.db.rows[n].status)
    ensures WaitingFor(s', m, n) || WorkingFor(s', m, n) || (step.CompleteStep? && StepMsg(s, step) == Some(m))
  {
    if StepMsg(s, step) == Some(m) {
      OwnPhase(w, s, step, s', m);
    } else {
      PhaseFrame(w, s, step, s', m);
    }
  }

  // ----- how a node becomes or stays QUEUED and RUNNING -----

  lemma BecomesQueued(w: Workflow, s: System, step: Step, s': System, n: NodeId)
    requires StepTo(w, s, step, s') && HasStatus(s'.db.rows, n, QUEUED) && n in s.db.rows
    ensures
      || (s.db.rows[n].status == QUEUED && !(step.ClaimStep? && NodeOf(s, s.tasks[step.task].msg) == n))
      || (step.RevertStep? && NodeOf(s, s.tasks[step.task].msg) == n && s.db.rows[n].status == RUNNING)
      || (step.CompleteStep? && exists j ::
            j in OwedAfter(w, s.db, NodeOf(s, s.tasks[step.task].msg), step.outcome) && j.node == n)
      || (step.RetryStep? && step.node == n)
  {
    if step.CompleteStep? {
      CompleteQueues(w, s.db, NodeOf(s, s.tasks[step.task].msg), step.outcome, n);
    }
  }

  lemma CompleteQueues(w: Workflow, db: Db, c: NodeId, outcome: Outcome, n: NodeId)
    requires IsNode(w, c) && n in db.rows
    ensures HasStatus(Complete(w, db, c, outcome).rows, n, QUEUED) ==>
      db.rows[n].status == QUEUED || exists j :: j in OwedAfter(w, db, c, outcome) && j.node == n
  {
    if HasStatus(db.rows, c, RUNNING) {
      match outcome
      case Success(output) =>
        SuccessEffect(w, db.rows, c, output);
        assert SuccessAt(w, db.rows, c, output, n);
        OwedAfterSuccess(w, db, c, output, Job(n, db.rows[n].attempt + 1));
      case Failure =>
        assert AttemptsLeft(db.rows[c]) ==> Job(c, db.rows[c].attempt + 1) in OwedAfter(w, db, c, outcome);
    }
  }

  lemma BecomesRunning(w: Workflow, s: System, step: Step, s': System, n: NodeId)
    requires StepTo(w, s, step, s') && HasStatus(s'.db.rows, n, RUNNING) && n in s.db.rows
    ensures
      || (s.db.rows[n].status == RUNNING && !(step.CompleteStep? && NodeOf(s, s.tasks[step.task].msg) == n))
      || (step.ClaimStep? && NodeOf(s, s.tasks[step.task].msg) == n && s.db.rows[n].status == QUEUED)
  {
    if step.CompleteStep? {
      CompleteLeavesRunning(w, s.db, NodeOf(s, s.tasks[step.task].msg), step.outcome, n);
    }
  }

  lemma CompleteLeavesRunning(w: Workflow, db: Db, c: NodeId, outcome: Outcome, n: NodeId)
    requires IsNode(w, c) && n in db.rows
    ensures HasStatus(Complete(w, db, c, outcome).rows, n, RUNNING) ==> db.rows[n].status == RUNNING && n != c
  {
    if HasStatus(db.rows, c, RUNNING) && outcome.Success? {
      SuccessEffect(w, db.rows, c, outcome.output);
      assert SuccessAt(w, db.rows, c, outcome.output, n);
    }
  }

  // ----- preservation -----

  /** A node that stays QUEUED, or is put back into the queue by recovery. */
  lemma StaysQueued(w: Workflow, s: System, step: Step, s': System, n: NodeId)
    requires Ownership(s) && Careful(s, step) && Enabled(w, s, step)
    requires s'.stream == NextStream(w, s, step) && s'.tasks == NextTasks(w, s, step)
    requires HasStatus(s.db.rows, n, QUEUED) && QueuedCovered(s, n)
    requires !(step.ClaimStep? && NodeOf(s, s.tasks[step.task].msg) == n)
    ensures QueuedCovered(s', n)
  {
    if m :| WaitingFor(s, m, n) {
      WaitingAfter(w, s, step, s', m, n);
    } else {
      var t :| OwesNode(s, t, n);
      OwesAfter(w, s, step, s', t, n);
    }
  }

  lemma Requeued(w: Workflow, s: System, step: Step, s': System, n: NodeId)
    requires Ownership(s) && Careful(s, step) && Enabled(w, s, step)
    requires s'.stream == NextStream(w, s, step) && s'.tasks == NextTasks(w, s, step)
    requires step.RevertStep? && NodeOf(s, s.tasks[step.task].msg) == n && HasStatus(s.db.rows, n, RUNNING)
    ensures QueuedCovered(s', n)
  {
    var m := s.tasks[step.task].msg;
    OwnPhase(w, s, step, s', m);
    assert WaitingFor(s', m, n);
  }

  lemma NewlyOwed(w: Workflow, s: System, step: Step, s': System, n: NodeId)
    requires Enabled(w, s, step) && s'.tasks == NextTasks(w, s, step)
    requires
      || (step.CompleteStep? && exists j ::
            j in OwedAfter(w, s.db, NodeOf(s, s.tasks[step.task].msg), step.outcome) && j.node == n)
      || (step.RetryStep? && step.node == n)
    ensures QueuedCovered(s', n)
  {
    if step.RetryStep? {
      assert s'.tasks[|s.tasks|].owed[0].node == n;
      assert OwesNode(s', |s.tasks|, n);
    } else {
      var j :| j in OwedAfter(w, s.db, NodeOf(s, s.tasks[step.task].msg), step.outcome) && j.node == n;
      assert j in step.owed;
      assert OwedIn(step.owed, n);
      assert OwesNode(s', step.task, n);
    }
  }

  lemma StepKeepsQueued(w: Workflow, s: System, step: Step, s': System, n: NodeId)
    requires Ownership(s) && Careful(s, step) && StepTo(w, s, step, s')
    requires n in s.db.rows && (s.db.rows[n].status == QUEUED ==> QueuedCovered(s, n))
    requires HasStatus(s'.db.rows, n, QUEUED)
    ensures QueuedCovered(s', n)
  {
    BecomesQueued(w, s, step, s', n);
    if s.db.rows[n].status == QUEUED && !(step.ClaimStep? && NodeOf(s, s.tasks[step.task].msg) == n) {
      StaysQueued(w, s, step, s', n);
    } else if step.RevertStep? {
      Requeued(w, s, step, s', n);
    } else {
      NewlyOwed(w, s, step, s', n);
    }
  }

  lemma StaysRunning(w: Workflow, s: System, step: Step, s': System, n: NodeId)
    requires Ownership(s) && Careful(s, step) && Enabled(w, s, step)
    requires s'.stream == NextStream(w, s, step) && s'.tasks == NextTasks(w, s, step)
    requires HasStatus(s.db.rows, n, RUNNING) && RunningCovered(s, n)
    requires !(step.CompleteStep? && NodeOf(s, s.tasks[step.task].msg) == n)
    ensures RunningCovered(s', n)
  {
    var m :| WaitingFor(s, m, n) || WorkingFor(s, m, n);
    if WaitingFor(s, m, n) {
      WaitingAfter(w, s, step, s', m, n);
    } else {
      WorkingAfter(w, s, step, s', m, n);
    }
  }

  lemma StepKeepsRunning(w: Workflow, s: System, step: Step, s': System, n: NodeId)
    requires Ownership(s) && Careful(s, step) && StepTo(w, s, step, s')
    requires n in s.db.rows && (s.db.rows[n].status == RUNNING ==> RunningCovered(s, n))
    requires HasStatus(s'.db.rows, n, RUNNING)
    ensures RunningCovered(s', n)
  {
    BecomesRunning(w, s, step, s', n);
    if s.db.rows[n].status == RUNNING {
      StaysRunning(w, s, step, s', n);
    } else {
      var m := s.tasks[step.task].msg;
      OwnPhase(w, s, step, s', m);
      assert WorkingFor(s', m, n);
    }
  }

  /** A careful step loses no job. */
  lemma StepKeepsJobs(w: Workflow, s: System, step: Step, s': System)
    requires Ownership(s) && NothingLost(s) && Careful(s, step) && StepTo(w, s, step, s')
    requires s.db.rows.Keys == s'.db.rows.Keys
    ensures NothingLost(s')
  {
    forall n | n in s'.db.rows
      ensures s'.db.rows[n].status == QUEUED ==> QueuedCovered(s', n)
      ensures s'.db.rows[n].status == RUNNING ==> RunningCovered(s', n)
    {
      if s'.db.rows[n].status == QUEUED { StepKeepsQueued(w, s, step, s', n); }
      if s'.db.rows[n].status == RUNNING { StepKeepsRunning(w, s, step, s', n); }
    }
  }

  lemma InitNothingLost(w: Workflow, s: System)
    requires Init(w, s)
    ensures Ownership(s) && NothingLost(s)
  {
    forall n | n in s.db.rows && s.db.rows[n].status == QUEUED ensures QueuedCovered(s, n) {
      assert Job(n, 1) in RootJobs(w);
      assert Job(n, 1) in s.tasks[0].owed;
      assert OwesNode(s, 0, n);
    }
  }
}
