/** From every state of a careful run, whatever crashed before, the protocol can
    still be driven to a state with no QUEUED and no RUNNING node. */
module Progress {
  import opened Graph
  import opened Model
  import opened Transactions
  import opened Invariants
  import opened Histories
  import opened Protocol
  import opened Safety
  import opened Delivery

  /** An executor: what running a node with given upstream outputs produces. */
  type Executor = (NodeId, Upstream) -> Outcome

  /** Completions report what the executor produces from the inputs the task read. */
  ghost predicate Obeys(exec: Executor, s: System, step: Step) {
    step.CompleteStep? && IsTask(s, step.task) && s.tasks[step.task].Executing? ==>
      step.outcome == exec(NodeOf(s, s.tasks[step.task].msg), s.tasks[step.task].upstream)
  }

  ghost predicate DrivenStep(w: Workflow, exec: Executor, s: System, step: Step, s': System) {
    StepTo(w, s, step, s') && Careful(s, step) && Obeys(exec, s, step)
  }

  ghost predicate Path(w: Workflow, exec: Executor, states: seq<System>, steps: seq<Step>) {
    && |states| == |steps| + 1
    && forall i, j :: 0 <= i < j < |states| && j == i + 1 ==> DrivenStep(w, exec, states[i], steps[i], states[j])
  }

  ghost predicate PathFromTo(w: Workflow, exec: Executor, s: System, s': System, states: seq<System>,
                             steps: seq<Step>) {
    Path(w, exec, states, steps) && states[0] == s && states[|states| - 1] == s'
  }

  /** Some finite sequence of careful steps leads from `s` to `s'`. */
  ghost predicate CanReach(w: Workflow, exec: Executor, s: System, s': System) {
    exists states, steps :: PathFromTo(w, exec, s, s', states, steps)
  }

  lemma CanReachSelf(w: Workflow, exec: Executor, s: System)
    ensures CanReach(w, exec, s, s)
  {
    assert PathFromTo(w, exec, s, s, [s], []);
  }

  lemma CanReachThen(w: Workflow, exec: Executor, s: System, step: Step, s1: System, s2: System)
    requires DrivenStep(w, exec, s, step, s1) && CanReach(w, exec, s1, s2)
    ensures CanReach(w, exec, s, s2)
  {
    var states, steps :| PathFromTo(w, exec, s1, s2, states, steps);
    PathCons(w, exec, s, step, states, steps);
    assert PathFromTo(w, exec, s, s2, [s] + states, [step] + steps);
  }

  lemma PathCons(w: Workflow, exec: Executor, s: System, step: Step, states: seq<System>, steps: seq<Step>)
    requires Path(w, exec, states, steps) && DrivenStep(w, exec, s, step, states[0])
    ensures Path(w, exec, [s] + states, [step] + steps)
  {
    var longer, labels := [s] + states, [step] + steps;
    forall i, j | 0 <= i < j < |longer| && j == i + 1 ensures DrivenStep(w, exec, longer[i], labels[i], longer[j]) {
      if i > 0 {
        assert longer[i] == states[i - 1] && labels[i] == steps[i - 1] && longer[j] == states[j - 1];
        assert DrivenStep(w, exec, states[i - 1], steps[i - 1], states[j - 1]);
      }
    }
  }

  lemma {:induction false} CanReachTransitive(w: Workflow, exec: Executor, a: System, b: System, c: System)
    requires CanReach(w, exec, a, b) && CanReach(w, exec, b, c)
    ensures CanReach(w, exec, a, c)
  {
    var states, steps :| PathFromTo(w, exec, a, b, states, steps);
    CanReachAlong(w, exec, states, steps, c);
  }

  lemma {:induction false} CanReachAlong(w: Workflow, exec: Executor, states: seq<System>, steps: seq<Step>, c: System)
    requires Path(w, exec, states, steps) && CanReach(w, exec, states[|states| - 1], c)
    ensures CanReach(w, exec, states[0], c)
    decreases |steps|
  {
    if steps != [] {
      PathTail(w, exec, states, steps);
      CanReachAlong(w, exec, states[1..], steps[1..], c);
      CanReachThen(w, exec, states[0], steps[0], states[1], c);
    }
  }

  lemma PathTail(w: Workflow, exec: Executor, states: seq<System>, steps: seq<Step>)
    requires Path(w, exec, states, steps) && steps != []
    ensures Path(w, exec, states[1..], steps[1..]) && DrivenStep(w, exec, states[0], steps[0], states[1])
  {
    var rest, labels := states[1..], steps[1..];
    forall i, j | 0 <= i < j < |rest| && j == i + 1 ensures DrivenStep(w, exec, rest[i], labels[i], rest[j]) {
      assert DrivenStep(w, exec, states[i + 1], steps[i + 1], states[j + 1]);
    }
  }

  /** What careful runs keep. */
  ghost predicate Sound(w: Workflow, s: System) {
    SystemInv(w, s) && Ownership(s) && NothingLost(s)
  }

  lemma StepKeepsSound(w: Workflow, s: System, step: Step, s': System)
    requires Sound(w, s) && StepTo(w, s, step, s') && Careful(s, step)
    ensures Sound(w, s')
  {
    StepKeepsInv(w, s, step, s');
    StepKeepsOwnership(w, s, step, s');
    StepKeepsJobs(w, s, step, s');
  }

  // ----- potential -----

  /** How many outcomes a node can still absorb before it settles. */
  function RowPotential(row: NodeRow, retried: nat): int {
    match row.status
    case PENDING => row.maxAttempts + 1
    case QUEUED => row.maxAttempts + retried - row.attempt + 1
    case RUNNING => row.maxAttempts + retried - row.attempt + 1
    case _ => 0
  }

  ghost function NodePotential(db: Db, n: NodeId): int {
    if n in db.rows then RowPotential(db.rows[n], TallyOf(db.history, n).retried) else 0
  }

  ghost function Total(db: Db, ids: seq<NodeId>): int {
    if ids == [] then 0 else Total(db, ids[..|ids| - 1]) + NodePotential(db, ids[|ids| - 1])
  }

  ghost predicate NoMorePotential(before: Db, after: Db) {
    forall n :: NodePotential(after, n) <= NodePotential(before, n)
  }

  lemma {:induction false} TotalShrinks(before: Db, after: Db, ids: seq<NodeId>)
    requires NoMorePotential(before, after)
    ensures Total(after, ids) <= Total(before, ids)
    ensures (exists n :: n in ids && NodePotential(after, n) < NodePotential(before, n)) ==>
      Total(after, ids) < Total(before, ids)
    decreases |ids|
  {
    if ids != [] {
      TotalShrinks(before, after, ids[..|ids| - 1]);
      if n :| n in ids && NodePotential(after, n) < NodePotential(before, n) {
        assert n in ids[..|ids| - 1] || n == ids[|ids| - 1];
      }
    }
  }

  lemma {:induction false} TotalNonNegative(db: Db, ids: seq<NodeId>)
    requires Books(db)
    ensures Total(db, ids) >= 0
    decreases |ids|
  {
    if ids != [] {
      TotalNonNegative(db, ids[..|ids| - 1]);
      PotentialNonNegative(db, ids[|ids| - 1]);
    }
  }

  lemma PotentialNonNegative(db: Db, n: NodeId)
    requires Books(db)
    ensures NodePotential(db, n) >= 0
  {
    if n in db.rows { assert BalancedAt(db, n); }
  }

  lemma ClaimKeepsPotential(db: Db, n: NodeId)
    ensures NoMorePotential(db, Claim(db, n)) && OnlySucceeds(db.rows, Claim(db, n).rows, n)
  {
    forall x ensures NodePotential(Claim(db, n), x) <= NodePotential(db, x) {
      TallyAppend(db.history, NodeStarted(n), x);
    }
  }

  lemma RevertKeepsPotential(db: Db, n: NodeId)
    ensures NoMorePotential(db, Revert(db, n)) && OnlySucceeds(db.rows, Revert(db, n).rows, n)
  {
    forall x ensures NodePotential(Revert(db, n), x) <= NodePotential(db, x) {
      TallyAppend(db.history, NodeReverted(n), x);
    }
  }

  lemma FailSpendsPotential(db: Db, n: NodeId)
    requires Books(db) && HasStatus(db.rows, n, RUNNING)
    ensures NoMorePotential(db, Fail(db, n)) && NodePotential(Fail(db, n), n) < NodePotential(db, n)
  {
    assert BalancedAt(db, n);
    forall x
      ensures NodePotential(Fail(db, n), x) <= NodePotential(db, x)
      ensures x == n ==> NodePotential(Fail(db, n), x) < NodePotential(db, x)
    {
      TallyAppend(db.history, NodeFailed(n), x);
      DeadLetterTally(db.history, n, x);
    }
  }

  /** No row gains potential when another node succeeds, and the successful one spends its own. */
  lemma SuccessSpendsAt(w: Workflow, rows: map<NodeId, NodeRow>, n: NodeId, output: Payload, x: NodeId, t: Tally,
                        recorded: seq<nat>)
    requires HasStatus(rows, n, RUNNING) && IsNode(w, n) && x in rows && Balanced(rows[x], t, recorded)
    ensures
      var after := RowsAfterSuccess(w, rows, n, output);
      && x in after && RowPotential(after[x], t.retried) <= RowPotential(rows[x], t.retried)
      && (x == n ==> RowPotential(after[x], t.retried) < RowPotential(rows[x], t.retried))
  {
  }

  lemma SucceedSpendsPotential(w: Workflow, db: Db, n: NodeId, output: Payload)
    requires Books(db) && IsNode(w, n) && HasStatus(db.rows, n, RUNNING)
    ensures NoMorePotential(db, Succeed(w, db, n, output))
    ensures NodePotential(Succeed(w, db, n, output), n) < NodePotential(db, n)
  {
    var after := Succeed(w, db, n, output);
    assert after.rows.Keys == db.rows.Keys by { SuccessEffect(w, db.rows, n, output); }
    forall x
      ensures NodePotential(after, x) <= NodePotential(db, x)
      ensures x == n ==> NodePotential(after, x) < NodePotential(db, x)
    {
      TallyAppend(db.history, NodeSucceeded(n), x);
      if x in db.rows {
        assert BalancedAt(db, x);
        SuccessSpendsAt(w, db.rows, n, output, x, TallyOf(db.history, x), RecordedAttempts(db.ledger, x));
      }
    }
  }

  /** Every applied outcome spends potential of its node and creates none elsewhere. */
  lemma CompleteSpendsPotential(w: Workflow, db: Db, n: NodeId, outcome: Outcome)
    requires Books(db) && IsNode(w, n) && HasStatus(db.rows, n, RUNNING)
    ensures NoMorePotential(db, Complete(w, db, n, outcome))
    ensures NodePotential(Complete(w, db, n, outcome), n) < NodePotential(db, n)
  {
    match outcome
    case Success(output) => SucceedSpendsPotential(w, db, n, output);
    case Failure => FailSpendsPotential(db, n);
  }

  // ----- driving one node to its next outcome -----

  lemma {:induction false} EnumerateJobs(owed: set<Job>) returns (jobs: seq<Job>)
    ensures Lists(jobs, owed)
    decreases |owed|
  {
    if owed == {} {
      jobs := [];
    } else {
      var j :| j in owed;
      var rest := EnumerateJobs(owed - {j});
      jobs := rest + [j];
    }
  }

  /** `s'` is a later sound state in which `n` has spent potential. */
  ghost predicate Advanced(w: Workflow, exec: Executor, s: System, s': System, n: NodeId) {
    && CanReach(w, exec, s, s')
    && Sound(w, s')
    && NoMorePotential(s.db, s'.db)
    && NodePotential(s'.db, n) < NodePotential(s.db, n)
    && OnlySucceeds(s.db.rows, s'.db.rows, n)
  }

  /** No node but `n` has newly succeeded. */
  ghost predicate OnlySucceeds(before: map<NodeId, NodeRow>, after: map<NodeId, NodeRow>, n: NodeId) {
    forall x :: HasStatus(after, x, SUCCEEDED) ==> x == n || HasStatus(before, x, SUCCEEDED)
  }

  lemma CompleteOnlySucceeds(w: Workflow, db: Db, n: NodeId, outcome: Outcome)
    requires IsNode(w, n) && HasStatus(db.rows, n, RUNNING)
    ensures OnlySucceeds(db.rows, Complete(w, db, n, outcome).rows, n)
  {
    if outcome.Success? {
      var after := Complete(w, db, n, outcome).rows;
      forall x ensures HasStatus(after, x, SUCCEEDED) ==> x == n || HasStatus(db.rows, x, SUCCEEDED) {
        SuccessKeepsSucceeded(w, db.rows, n, outcome.output, x);
      }
    }
  }

  /** Taking one more step in front. */
  lemma AdvanceAfter(w: Workflow, exec: Executor, s: System, step: Step, s1: System, s2: System, n: NodeId)
    requires DrivenStep(w, exec, s, step, s1) && Advanced(w, exec, s1, s2, n) && NoMorePotential(s.db, s1.db)
    requires OnlySucceeds(s.db.rows, s1.db.rows, n)
    ensures Advanced(w, exec, s, s2, n)
  {
    CanReachThen(w, exec, s, step, s1, s2);
    forall x ensures NodePotential(s2.db, x) <= NodePotential(s.db, x) {
      assert NodePotential(s1.db, x) <= NodePotential(s.db, x);
      assert NodePotential(s2.db, x) <= NodePotential(s1.db, x);
    }
  }

  /** The task stands at `task`, which works on `n`. */
  ghost predicate StandsFor(s: System, t: nat, n: NodeId) {
    IsTask(s, t) && MsgOf(s.tasks[t]).Some? && NodeOf(s, MsgOf(s.tasks[t]).value) == n
  }

  lemma DoComplete(w: Workflow, exec: Executor, s: System, t: nat, n: NodeId) returns (step: Step, s': System)
    requires StandsFor(s, t, n) && s.tasks[t].Executing? && IsNode(w, n)
    ensures DrivenStep(w, exec, s, step, s')
    ensures exists outcome :: s'.db == Complete(w, s.db, n, outcome)
  {
    var outcome := exec(n, s.tasks[t].upstream);
    var owed := EnumerateJobs(OwedAfter(w, s.db, n, outcome));
    step := CompleteStep(t, outcome, owed);
    s' := System(Complete(w, s.db, n, outcome), s.stream, s.tasks[t := Finishing(Some(s.tasks[t].msg), owed)]);
  }

  lemma FromExecuting(w: Workflow, exec: Executor, s: System, t: nat, n: NodeId) returns (s': System)
    requires Sound(w, s) && StandsFor(s, t, n) && s.tasks[t].Executing? && HasStatus(s.db.rows, n, RUNNING)
    ensures Advanced(w, exec, s, s', n)
  {
    var step;
    step, s' := DoComplete(w, exec, s, t, n);
    StepKeepsSound(w, s, step, s');
    var outcome :| s'.db == Complete(w, s.db, n, outcome);
    CompleteSpendsPotential(w, s.db, n, outcome);
    CompleteOnlySucceeds(w, s.db, n, outcome);
    CanReachSelf(w, exec, s');
    CanReachThen(w, exec, s, step, s', s');
  }

  lemma DoRead(w: Workflow, exec: Executor, s: System, t: nat, n: NodeId) returns (s': System)
    requires StandsFor(s, t, n) && s.tasks[t].Reading?
    ensures DrivenStep(w, exec, s, ReadStep(t), s') && s'.db == s.db
    ensures StandsFor(s', t, n) && s'.tasks[t].Executing?
  {
    s' := System(s.db, s.stream, s.tasks[t := Executing(s.tasks[t].msg, UpstreamOf(w, s.db.rows, n))]);
  }

  lemma FromReading(w: Workflow, exec: Executor, s: System, t: nat, n: NodeId) returns (s': System)
    requires Sound(w, s) && StandsFor(s, t, n) && s.tasks[t].Reading? && HasStatus(s.db.rows, n, RUNNING)
    ensures Advanced(w, exec, s, s', n)
  {
    var s1 := DoRead(w, exec, s, t, n);
    StepKeepsSound(w, s, ReadStep(t), s1);
    s' := FromExecuting(w, exec, s1, t, n);
    AdvanceAfter(w, exec, s, ReadStep(t), s1, s', n);
  }

  lemma DoClaim(w: Workflow, exec: Executor, s: System, t: nat, n: NodeId) returns (s': System)
    requires StandsFor(s, t, n) && s.tasks[t].Claiming? && HasStatus(s.db.rows, n, QUEUED)
    ensures DrivenStep(w, exec, s, ClaimStep(t), s') && s'.db == Claim(s.db, n)
    ensures StandsFor(s', t, n) && s'.tasks[t].Reading?
  {
    s' := System(Claim(s.db, n), s.stream, s.tasks[t := Reading(s.tasks[t].msg)]);
  }

  lemma FromClaiming(w: Workflow, exec: Executor, s: System, t: nat, n: NodeId) returns (s': System)
    requires Sound(w, s) && StandsFor(s, t, n) && s.tasks[t].Claiming? && HasStatus(s.db.rows, n, QUEUED)
    ensures Advanced(w, exec, s, s', n)
  {
    hide OnlySucceeds, NoMorePotential, DbInv;
    var s1 := DoClaim(w, exec, s, t, n);
    StepKeepsSound(w, s, ClaimStep(t), s1);
    ClaimKeepsPotential(s.db, n);
    s' := FromReading(w, exec, s1, t, n);
    AdvanceAfter(w, exec, s, ClaimStep(t), s1, s', n);
  }

  lemma DoRevert(w: Workflow, exec: Executor, s: System, t: nat, n: NodeId) returns (s': System)
    requires StandsFor(s, t, n) && s.tasks[t].Recovering? && Active(s.db.rows, n)
    ensures DrivenStep(w, exec, s, RevertStep(t), s') && s'.db == Revert(s.db, n)
    ensures StandsFor(s', t, n) && s'.tasks[t].Claiming?
  {
    s' := System(Revert(s.db, n), s.stream, s.tasks[t := Claiming(s.tasks[t].msg)]);
  }

  lemma FromRecovering(w: Workflow, exec: Executor, s: System, t: nat, n: NodeId) returns (s': System)
    requires Sound(w, s) && StandsFor(s, t, n) && s.tasks[t].Recovering? && Active(s.db.rows, n)
    ensures Advanced(w, exec, s, s', n)
  {
    hide OnlySucceeds, NoMorePotential, DbInv;
    var s1 := DoRevert(w, exec, s, t, n);
    StepKeepsSound(w, s, RevertStep(t), s1);
    RevertKeepsPotential(s.db, n);
    s' := FromClaiming(w, exec, s1, t, n);
    AdvanceAfter(w, exec, s, RevertStep(t), s1, s', n);
  }

  /** Nobody works on the entry any more. */
  ghost predicate Abandoned(s: System, m: nat, n: NodeId) {
    && m < |s.stream| && NodeOf(s, m) == n && s.stream[m].delivery.Pending?
    && s.stream[m].delivery.owner < |s.tasks| && s.tasks[s.stream[m].delivery.owner].Stopped?
  }

  lemma DoReclaim(w: Workflow, exec: Executor, s: System, m: nat, n: NodeId) returns (s': System)
    requires Abandoned(s, m, n)
    ensures DrivenStep(w, exec, s, Reclaim(m), s') && s'.db == s.db
    ensures StandsFor(s', |s.tasks|, n) && s'.tasks[|s.tasks|].Recovering?
  {
    s' := System(s.db, SetDelivery(s.stream, m, Pending(|s.tasks|)), s.tasks + [Recovering(m)]);
  }

  /** An abandoned entry is picked up by recovery. */
  lemma FromAbandoned(w: Workflow, exec: Executor, s: System, m: nat, n: NodeId) returns (s': System)
    requires Sound(w, s) && Abandoned(s, m, n) && Active(s.db.rows, n)
    ensures Advanced(w, exec, s, s', n)
  {
    var s1 := DoReclaim(w, exec, s, m, n);
    StepKeepsSound(w, s, Reclaim(m), s1);
    s' := FromRecovering(w, exec, s1, |s.tasks|, n);
    AdvanceAfter(w, exec, s, Reclaim(m), s1, s', n);
  }

  lemma DoReject(w: Workflow, exec: Executor, s: System, t: nat, n: NodeId) returns (s': System)
    requires StandsFor(s, t, n) && s.tasks[t].Claiming? && HasStatus(s.db.rows, n, RUNNING)
    requires OwnsEntry(s, t, s.tasks[t].msg)
    ensures DrivenStep(w, exec, s, ClaimStep(t), s') && s'.db == s.db
    ensures Abandoned(s', s.tasks[t].msg, n)
  {
    s' := System(s.db, s.stream, s.tasks[t := Stopped]);
  }

  /** A worker that finds the node RUNNING raises, and leaves the entry to recovery. */
  lemma FromRejected(w: Workflow, exec: Executor, s: System, t: nat, n: NodeId) returns (s': System)
    requires Sound(w, s) && StandsFor(s, t, n) && s.tasks[t].Claiming? && HasStatus(s.db.rows, n, RUNNING)
    ensures Advanced(w, exec, s, s', n)
  {
    assert OwnsEntry(s, t, s.tasks[t].msg);
    var s1 := DoReject(w, exec, s, t, n);
    StepKeepsSound(w, s, ClaimStep(t), s1);
    s' := FromAbandoned(w, exec, s1, s.tasks[t].msg, n);
    AdvanceAfter(w, exec, s, ClaimStep(t), s1, s', n);
  }

  lemma FromEntered(w: Workflow, exec: Executor, s: System, t: nat, n: NodeId) returns (s': System)
    requires Sound(w, s) && StandsFor(s, t, n) && s.tasks[t].Claiming? && Active(s.db.rows, n)
    ensures Advanced(w, exec, s, s', n)
  {
    if s.db.rows[n].status == QUEUED {
      s' := FromClaiming(w, exec, s, t, n);
    } else {
      s' := FromRejected(w, exec, s, t, n);
    }
  }

  lemma DoDeliver(w: Workflow, exec: Executor, s: System, m: nat, n: NodeId) returns (s': System)
    requires m < |s.stream| && NodeOf(s, m) == n && s.stream[m].delivery.Undelivered?
    ensures DrivenStep(w, exec, s, Deliver(m), s') && s'.db == s.db
    ensures StandsFor(s', |s.tasks|, n) && s'.tasks[|s.tasks|].Claiming?
  {
    s' := System(s.db, SetDelivery(s.stream, m, Pending(|s.tasks|)), s.tasks + [Claiming(m)]);
  }

  lemma FromUndelivered(w: Workflow, exec: Executor, s: System, m: nat, n: NodeId) returns (s': System)
    requires Sound(w, s) && m < |s.stream| && NodeOf(s, m) == n && Active(s.db.rows, n)
    requires s.stream[m].delivery.Undelivered?
    ensures Advanced(w, exec, s, s', n)
  {
    var s1 := DoDeliver(w, exec, s, m, n);
    StepKeepsSound(w, s, Deliver(m), s1);
    s' := FromEntered(w, exec, s1, |s.tasks|, n);
    AdvanceAfter(w, exec, s, Deliver(m), s1, s', n);
  }

  lemma DoPublish(w: Workflow, exec: Executor, s: System, t: nat, n: NodeId) returns (s': System)
    requires OwesNode(s, t, n) && HasMessage(s, s.tasks[t])
    ensures DrivenStep(w, exec, s, PublishStep(t), s') && s'.db == s.db && |s'.stream| == |s.stream| + 1
    ensures t < |s'.tasks| && s'.tasks[t].Finishing? && |s'.tasks[t].owed| < |s.tasks[t].owed|
    ensures OwesNode(s', t, n) || (NodeOf(s', |s.stream|) == n && s'.stream[|s.stream|].delivery.Undelivered?)
  {
    var owed := s.tasks[t].owed;
    OwedSplit(owed, n);
    s' := System(s.db, s.stream + [Message(owed[0], Undelivered)], s.tasks[t := s.tasks[t].(owed := owed[1..])]);
  }

  lemma {:induction false} FromOwed(w: Workflow, exec: Executor, s: System, t: nat, n: NodeId) returns (s': System)
    requires Sound(w, s) && OwesNode(s, t, n) && Active(s.db.rows, n)
    ensures Advanced(w, exec, s, s', n)
    decreases if t < |s.tasks| && s.tasks[t].Finishing? then |s.tasks[t].owed| else 0
  {
    assert TaskOk(w, s, s.tasks[t]);
    var s1 := DoPublish(w, exec, s, t, n);
    StepKeepsSound(w, s, PublishStep(t), s1);
    if OwesNode(s1, t, n) {
      s' := FromOwed(w, exec, s1, t, n);
    } else {
      s' := FromUndelivered(w, exec, s1, |s.stream|, n);
    }
    AdvanceAfter(w, exec, s, PublishStep(t), s1, s', n);
  }

  /** An entry that waits for an active node can be driven to the node's next outcome. */
  lemma FromWaiting(w: Workflow, exec: Executor, s: System, m: nat, n: NodeId) returns (s': System)
    requires Sound(w, s) && WaitingFor(s, m, n) && Active(s.db.rows, n)
    ensures Advanced(w, exec, s, s', n)
  {
    match s.stream[m].delivery
    case Undelivered => s' := FromUndelivered(w, exec, s, m, n);
    case Pending(o) =>
      assert OwnerOk(s, m);
      match s.tasks[o] {
        case Stopped => s' := FromAbandoned(w, exec, s, m, n);
        case Recovering(_) => s' := FromRecovering(w, exec, s, o, n);
        case Claiming(_) => s' := FromEntered(w, exec, s, o, n);
      }
  }

  lemma FromWorking(w: Workflow, exec: Executor, s: System, m: nat, n: NodeId) returns (s': System)
    requires Sound(w, s) && WorkingFor(s, m, n) && HasStatus(s.db.rows, n, RUNNING)
    ensures Advanced(w, exec, s, s', n)
  {
    var o := s.stream[m].delivery.owner;
    assert OwnerOk(s, m);
    if s.tasks[o].Reading? {
      s' := FromReading(w, exec, s, o, n);
    } else {
      s' := FromExecuting(w, exec, s, o, n);
    }
  }

  /** An active node of a sound state can always be driven to its next outcome. */
  lemma DriveNode(w: Workflow, exec: Executor, s: System, n: NodeId) returns (s': System)
    requires Sound(w, s) && Active(s.db.rows, n)
    ensures Advanced(w, exec, s, s', n)
  {
    if m :| WaitingFor(s, m, n) {
      s' := FromWaiting(w, exec, s, m, n);
    } else if m :| WorkingFor(s, m, n) && s.db.rows[n].status == RUNNING {
      s' := FromWorking(w, exec, s, m, n);
    } else {
      assert QueuedCovered(s, n);
      var t :| OwesNode(s, t, n);
      s' := FromOwed(w, exec, s, t, n);
    }
  }

  ghost predicate Quiescent(s: System) {
    forall n :: !Active(s.db.rows, n)
  }

  /** Every sound state can be driven to quiescence, whatever the executors do. */
  lemma {:induction false} CanQuiesce(w: Workflow, exec: Executor, s: System) returns (s': System)
    requires Sound(w, s)
    ensures CanReach(w, exec, s, s') && Sound(w, s') && Quiescent(s')
    decreases Total(s.db, Ids(w.nodes))
  {
    if n :| Active(s.db.rows, n) {
      assert IsNode(w, n);
      var s1 := DriveNode(w, exec, s, n);
      TotalShrinks(s.db, s1.db, Ids(w.nodes));
      TotalNonNegative(s1.db, Ids(w.nodes));
      TotalNonNegative(s.db, Ids(w.nodes));
      s' := CanQuiesce(w, exec, s1);
      CanReachTransitive(w, exec, s, s1, s');
    } else {
      CanReachSelf(w, exec, s);
      s' := s;
    }
  }
}
