/** The distributed protocol: the database rows of one execution, the Redis
    stream with its consumer group, and any number of concurrent processes
    (workers, recovery loops, API calls), each a task with local state. */
module Protocol {
  import opened Graph
  import opened Model
  import opened Transactions

  /** Consumer-group state of a stream entry; `owner` is the task that read or claimed it last. */
  datatype Delivery = Undelivered | Pending(owner: nat) | Acked

  datatype Message = Message(job: Job, delivery: Delivery)

  type Upstream = map<NodeId, Option<Payload>>

  datatype Task =
    | Recovering(msg: nat)                        // claimed a stale entry, has not looked at the row
    | Claiming(msg: nat)                          // entered process_job
    | Reading(msg: nat)                           // committed QUEUED -> RUNNING
    | Executing(msg: nat, upstream: Upstream)     // the executor runs with these inputs
    | Finishing(source: Option<nat>, owed: seq<Job>) // committed; still to publish, then to ack
    | Stopped                                     // returned, raised, or died

  datatype System = System(db: Db, stream: seq<Message>, tasks: seq<Task>)

  datatype Step =
    | Deliver(msg: nat)        // XREADGROUP
    | Reclaim(msg: nat)        // XCLAIM by a recovery loop
    | RevertStep(task: nat)
    | ClaimStep(task: nat)
    | ReadStep(task: nat)
    | CompleteStep(task: nat, outcome: Outcome, owed: seq<Job>)
    | PublishStep(task: nat)
    | AckStep(task: nat)
    | Crash(task: nat)
    | RetryStep(node: NodeId)  // manual retry through the API
    | ResolveStep(row: nat)    // manual resolution of a ledger row

  /** The outputs of the parents of `n`, as an executor is given them. */
  ghost function UpstreamOf(w: Workflow, rows: map<NodeId, NodeRow>, n: NodeId): Upstream {
    map p | p in Parents(w.edges, n) && p in rows :: rows[p].output
  }

  /** `jobs` lists exactly the jobs of a set, each once. */
  ghost predicate Lists(jobs: seq<Job>, owed: set<Job>) {
    Distinct(jobs) && forall j :: j in jobs <==> j in owed
  }

  /** Right after the commit of `start_execution`: the API process owes the root jobs. */
  ghost predicate Init(w: Workflow, s: System) {
    && s.db == Started(w)
    && s.stream == []
    && |s.tasks| == 1
    && s.tasks[0].Finishing? && s.tasks[0].source == None
    && Lists(s.tasks[0].owed, RootJobs(w))
  }

  predicate HasMessage(s: System, t: Task) {
    match t
    case Recovering(m) => m < |s.stream|
    case Claiming(m) => m < |s.stream|
    case Reading(m) => m < |s.stream|
    case Executing(m, _) => m < |s.stream|
    case Finishing(src, _) => src.Some? ==> src.value < |s.stream|
    case Stopped => false
  }

  predicate IsTask(s: System, t: nat) {
    t < |s.tasks| && HasMessage(s, s.tasks[t])
  }

  function NodeOf(s: System, m: nat): NodeId
    requires m < |s.stream|
  {
    s.stream[m].job.node
  }

  ghost predicate Enabled(w: Workflow, s: System, step: Step) {
    match step
    case Deliver(m) => m < |s.stream| && s.stream[m].delivery.Undelivered?
    case Reclaim(m) => m < |s.stream| && s.stream[m].delivery.Pending?
    case RevertStep(t) => IsTask(s, t) && s.tasks[t].Recovering?
    case ClaimStep(t) => IsTask(s, t) && s.tasks[t].Claiming?
    case ReadStep(t) => IsTask(s, t) && s.tasks[t].Reading?
    case CompleteStep(t, outcome, owed) =>
      && IsTask(s, t) && s.tasks[t].Executing?
      && var n := NodeOf(s, s.tasks[t].msg);
         IsNode(w, n) && Lists(owed, OwedAfter(w, s.db, n, outcome))
    case PublishStep(t) => IsTask(s, t) && s.tasks[t].Finishing? && s.tasks[t].owed != []
    case AckStep(t) => IsTask(s, t) && s.tasks[t].Finishing? && s.tasks[t].owed == []
    case Crash(t) => t < |s.tasks|
    case RetryStep(n) => CanRetry(s.db, n)
    case ResolveStep(k) => k < |s.db.ledger|
  }

  /** The transaction a step commits. */
  ghost function TxnOf(w: Workflow, s: System, step: Step): (txn: Txn)
    requires Enabled(w, s, step)
    ensures TxnOk(w, txn)
  {
    match step
    case RevertStep(t) => RevertTxn(NodeOf(s, s.tasks[t].msg))
    case ClaimStep(t) => ClaimTxn(NodeOf(s, s.tasks[t].msg))
    case CompleteStep(t, outcome, _) => CompleteTxn(NodeOf(s, s.tasks[t].msg), outcome)
    case RetryStep(n) => RetryTxn(n)
    case ResolveStep(k) => ResolveTxn(k)
    case _ => NoTxn
  }

  /** The task that takes a step, if it belongs to an existing task. */
  function Actor(step: Step): Option<nat> {
    match step
    case RevertStep(t) => Some(t)
    case ClaimStep(t) => Some(t)
    case ReadStep(t) => Some(t)
    case CompleteStep(t, _, _) => Some(t)
    case PublishStep(t) => Some(t)
    case AckStep(t) => Some(t)
    case Crash(t) => Some(t)
    case _ => None
  }

  /** Where a task stands after its own step. */
  ghost function NextTask(w: Workflow, s: System, step: Step): Task
    requires Enabled(w, s, step) && Actor(step).Some?
  {
    match step
    case RevertStep(t) =>
      var m := s.tasks[t].msg;
      var n := NodeOf(s, m);
      // a missing or terminal row is acknowledged without execution
      if n !in s.db.rows || Terminal(s.db.rows[n].status) then Finishing(Some(m), []) else Claiming(m)
    case ClaimStep(t) =>
      var m := s.tasks[t].msg;
      var n := NodeOf(s, m);
      if n !in s.db.rows || Terminal(s.db.rows[n].status) then Finishing(Some(m), [])
      else if s.db.rows[n].status == QUEUED then Reading(m)
      else Stopped  // invalid transition: raises, the entry stays pending
    case ReadStep(t) =>
      Executing(s.tasks[t].msg, UpstreamOf(w, s.db.rows, NodeOf(s, s.tasks[t].msg)))
    case CompleteStep(t, _, owed) => Finishing(Some(s.tasks[t].msg), owed)
    case PublishStep(t) => s.tasks[t].(owed := s.tasks[t].owed[1..])
    case AckStep(_) => Stopped
    case Crash(_) => Stopped
  }

  ghost function NextTasks(w: Workflow, s: System, step: Step): seq<Task>
    requires Enabled(w, s, step)
  {
    match step
    case Deliver(m) => s.tasks + [Claiming(m)]
    case Reclaim(m) => s.tasks + [Recovering(m)]
    case RetryStep(n) => s.tasks + [Finishing(None, [Job(n, s.db.rows[n].attempt + 1)])]
    case ResolveStep(_) => s.tasks
    case _ => s.tasks[Actor(step).value := NextTask(w, s, step)]
  }

  function SetDelivery(stream: seq<Message>, m: nat, d: Delivery): seq<Message>
    requires m < |stream|
  {
    stream[m := stream[m].(delivery := d)]
  }

  ghost function NextStream(w: Workflow, s: System, step: Step): seq<Message>
    requires Enabled(w, s, step)
  {
    match step
    case Deliver(m) => SetDelivery(s.stream, m, Pending(|s.tasks|))
    case Reclaim(m) => SetDelivery(s.stream, m, Pending(|s.tasks|))
    case PublishStep(t) => s.stream + [Message(s.tasks[t].owed[0], Undelivered)]
    case AckStep(t) =>
      if s.tasks[t].source.Some? then SetDelivery(s.stream, s.tasks[t].source.value, Acked) else s.stream
    case _ => s.stream
  }

  ghost predicate StepTo(w: Workflow, s: System, step: Step, s': System) {
    && Enabled(w, s, step)
    && s'.db == Commit(w, s.db, TxnOf(w, s, step))
    && s'.stream == NextStream(w, s, step)
    && s'.tasks == NextTasks(w, s, step)
  }

  // ----- runs -----

  /** States and the steps between them. */
  ghost predicate Follows(w: Workflow, states: seq<System>, steps: seq<Step>) {
    && |states| == |steps| + 1
    && forall i, j :: 0 <= i < j < |states| && j == i + 1 ==> StepTo(w, states[i], steps[i], states[j])
  }

  /** A finite run of one execution, from its start on. */
  ghost predicate Run(w: Workflow, states: seq<System>, steps: seq<Step>) {
    Follows(w, states, steps) && Init(w, states[0])
  }
}
