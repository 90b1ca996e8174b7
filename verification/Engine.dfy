/** The engine's database code in its own form: a store whose rows are updated in
    place by guarded transitions, with the skip cascade, the join and the start of
    an execution as loops.  Each method commits what `Transactions` specifies. */
module Engine {
  import opened Graph
  import opened Model
  import opened Transactions
  import opened Invariants
  import opened Protocol
  import opened Publishing
  import DagValidator

  datatype AppError =
    NotFound | InvalidTransition | InvalidState | MultipleResults | Invalid(error: DagValidator.ValidationError)

  /** What `process_job` does with a delivered job before it executes anything. */
  datatype ClaimOutcome = Claimed | NothingToDo | Rejected

  class Store {
    const w: Workflow
    var status: ExecutionStatus
    var rows: map<NodeId, NodeRow>
    var ledger: seq<DeadLetter>
    var history: seq<Event>

    ghost function State(): Db
      reads this
    {
      Db(status, rows, ledger, history)
    }

    /** Every row belongs to a node, and every edge connects rows. */
    ghost predicate Valid()
      reads this
    {
      && (forall n :: n in rows <==> IsNode(w, n))
      && EdgesWithin(Ids(w.nodes), w.edges)
    }

    // ----- guarded transitions -----

    method TransitionNode(n: NodeId, from: NodeStatus, to: NodeStatus) returns (r: Result<NodeRow, AppError>)
      modifies this`rows
      ensures n !in old(rows) ==> r == Err(NotFound)
      ensures n in old(rows) && old(rows)[n].status != from ==> r == Err(InvalidTransition)
      ensures r.Err? ==> rows == old(rows)
      ensures r.Ok? ==> HasStatus(old(rows), n, from) && rows == old(rows)[n := r.value]
      ensures r.Ok? ==>
        r.value == old(rows)[n].(status := to, attempt := old(rows)[n].attempt + if to == QUEUED then 1 else 0)
      ensures HasStatus(old(rows), n, from) ==> r.Ok?
    {
      if n !in rows {
        return Err(NotFound);
      }
      if rows[n].status != from {
        return Err(InvalidTransition);
      }
      rows := rows[n := rows[n].(status := to)];
      if to == QUEUED {
        rows := rows[n := rows[n].(attempt := rows[n].attempt + 1)];
      }
      r := Ok(rows[n]);
    }

    method TransitionExecution(from: ExecutionStatus, to: ExecutionStatus) returns (r: Result<(), AppError>)
      modifies this`status
      ensures r.Ok? <==> old(status) == from
      ensures status == if r.Ok? then to else old(status)
    {
      if status != from {
        return Err(InvalidTransition);
      }
      status := to;
      r := Ok(());
    }

    // ----- the skip cascade -----

    /** The `while queue` loop: pop a candidate, skip it if PENDING, append its children. */
    method CascadeSkips(seeds: set<NodeId>)
      modifies this`rows
      ensures rows == WithSkipped(old(rows), SkipClosure(w.edges, old(rows), seeds))
    {
      ghost var before, skipped := rows, {};
      var queue := ListOf(seeds);
      CascadeStarts(w.edges, before, seeds, queue);
      while queue != []
        invariant rows == WithSkipped(before, skipped)
        invariant CascadeInv(w.edges, before, seeds, skipped, queue)
        decreases PendingIn(before) - skipped, |queue|
      {
        var x := queue[0];
        var children := Children(w.edges, x);
        CascadeStep(w.edges, before, seeds, skipped, queue);
        SkipOneMore(before, skipped, x);
        queue := queue[1..];
        if x in rows && rows[x].status == PENDING {
          var t := TransitionNode(x, PENDING, SKIPPED);
          skipped := skipped + {x};
          queue := AppendMissing(queue, children);
        }
      }
      CascadeDone(w.edges, before, seeds, skipped);
    }

    // ----- the AND-join -----

    method ParentsSucceeded(c: NodeId) returns (all: bool)
      requires Valid()
      ensures all <==> AllParentsSucceeded(w.edges, rows, c)
    {
      var parents := Parents(w.edges, c);
      for k := 0 to |parents|
        invariant forall j :: 0 <= j < k ==> HasStatus(rows, parents[j], SUCCEEDED)
      {
        assert Edge(parents[k], c) in w.edges by { assert parents[k] in parents; }
        if rows[parents[k]].status != SUCCEEDED {
          return false;
        }
      }
      all := true;
      forall p | Edge(p, c) in w.edges ensures HasStatus(rows, p, SUCCEEDED) { assert p in parents; }
    }

    /** One child in the loop: release it if it is PENDING and all its parents have succeeded. */
    method HandleChild(c: NodeId, publish: seq<Job>, ghost before: map<NodeId, NodeRow>, ghost n: NodeId,
                       ghost handled: set<NodeId>)
      returns (published: seq<Job>)
      requires Valid() && Edge(n, c) in w.edges && ReleaseState(w.edges, before, n, handled, rows, publish)
      modifies this`rows
      ensures Valid() && ReleaseState(w.edges, before, n, handled + {c}, rows, published)
    {
      published := publish;
      ReleaseOne(w.edges, before, n, handled, rows, publish, c);
      if c in rows && rows[c].status == PENDING {
        var ready := ParentsSucceeded(c);
        if ready {
          var t := TransitionNode(c, PENDING, QUEUED);
          published := publish + [Job(c, t.value.attempt)];
        }
      }
    }

    /** The loop over the children of `n` that releases those whose parents have all succeeded. */
    method ReleaseChildren(n: NodeId) returns (publish: seq<Job>)
      requires Valid()
      modifies this`rows
      ensures Valid()
      ensures ReleaseState(w.edges, old(rows), n, DagValidator.Elements(Children(w.edges, n)), rows, publish)
    {
      ghost var before, handled := rows, {};
      var children := Children(w.edges, n);
      publish := [];
      assert WithEnqueued(w.edges, before, n, {}) == before;
      for k := 0 to |children|
        invariant Valid() && handled == DagValidator.Elements(children[..k])
        invariant ReleaseState(w.edges, before, n, handled, rows, publish)
      {
        ReleaseStep(w.edges, n, children, k);
        publish := HandleChild(children[k], publish, before, n, handled);
        handled := handled + {children[k]};
      }
      assert children[..|children|] == children;
    }

    /** `_queue_downstream_nodes`: skip the unchosen branches, then release the joined children. */
    method QueueDownstream(n: NodeId, output: Payload) returns (publish: seq<Job>)
      requires Valid() && n in rows
      modifies this`rows
      ensures Valid()
      ensures ReleaseState(w.edges, WithSkipped(old(rows), SkipClosure(w.edges, old(rows), SkipSeeds(w, n, output))), n,
                           DagValidator.Elements(Children(w.edges, n)), rows, publish)
      ensures rows.Keys == old(rows).Keys && PublishesQueued(old(rows), rows, publish)
      ensures forall x :: x in old(rows) ==> RowDownstream(w, old(rows), n, output, x, rows[x])
    {
      ghost var before := rows;
      var children := Children(w.edges, n);
      if children == [] {
        publish := [];
        NothingDownstream(w, rows, n, output);
        DownstreamIsExact(w, before, n, output, rows, publish);
        return;
      }
      var def := Def(w.nodes, n);
      var skips: set<NodeId> := {};
      if def.kind == "condition" {
        var chosen := Lookup(output, "next_node");
        var onTrue, onFalse := Lookup(def.config, "true_path"), Lookup(def.config, "false_path");
        if onTrue != "" && onTrue != chosen { skips := skips + {onTrue}; }
        if onFalse != "" && onFalse != chosen { skips := skips + {onFalse}; }
      }
      assert skips == SkipSeeds(w, n, output) by {
        assert children[0] in children && Edge(n, children[0]) in w.edges;
        assert skips == UnchosenBranches(def, output);
      }
      CascadeSkips(skips);
      publish := ReleaseChildren(n);
      DownstreamIsExact(w, before, n, output, rows, publish);
    }

    /** `_handle_node_failure`: back into the queue while attempts remain, else into the ledger. */
    method HandleFailure(n: NodeId) returns (publish: seq<Job>)
      requires HasStatus(rows, n, FAILED)
      modifies this
      ensures rows ==
        old(rows)[n := if AttemptsLeft(old(rows)[n]) then Enqueued(old(rows)[n])
                       else old(rows)[n].(status := DEAD_LETTERED)]
      ensures rows[n].status == if old(rows)[n].attempt < old(rows)[n].maxAttempts then QUEUED else DEAD_LETTERED
      ensures AttemptsLeft(old(rows)[n]) ==>
        publish == [Job(n, old(rows)[n].attempt + 1)] && status == old(status) &&
        ledger == old(ledger) && history == old(history)
      ensures !AttemptsLeft(old(rows)[n]) ==>
        && publish == []
        && status == (if old(status) == EXEC_RUNNING then EXEC_FAILED else old(status))
        && ledger == old(ledger) + [DeadLetter(n, old(rows)[n].attempt, false)]
        && history == old(history) + [NodeDeadLettered(n)]
    {
      if rows[n].attempt < rows[n].maxAttempts {
        var retrying := TransitionNode(n, FAILED, RETRYING);
        var retried := TransitionNode(n, RETRYING, QUEUED);
        return [Job(n, retried.value.attempt)];
      }
      var dead := TransitionNode(n, FAILED, DEAD_LETTERED);
      history := history + [NodeDeadLettered(n)];
      ledger := ledger + [DeadLetter(n, dead.value.attempt, false)];
      if status == EXEC_RUNNING {
        var e := TransitionExecution(EXEC_RUNNING, EXEC_FAILED);
      }
      publish := [];
    }

    /** The success arm of the completion. */
    method ApplySuccess(n: NodeId, output: Payload) returns (publish: seq<Job>)
      requires Valid() && HasStatus(rows, n, RUNNING)
      modifies this`rows, this`history
      ensures Valid()
      ensures rows == RowsAfterSuccess(w, old(rows), n, output) && history == old(history) + [NodeSucceeded(n)]
      ensures Lists(publish, OwedAfter(w, old(State()), n, Success(output)))
    {
      ghost var before := State();
      rows := rows[n := rows[n].(output := Some(output))];
      var t := TransitionNode(n, RUNNING, SUCCEEDED);
      history := history + [NodeSucceeded(n)];
      assert rows == SucceededRows(w, before.rows, n, output);
      publish := QueueDownstream(n, output);
      DownstreamIsSuccess(w, before, n, output);
    }

    /** The failure arm of the completion: FAILED first, then retried or dead-lettered. */
    method ApplyFailure(n: NodeId) returns (publish: seq<Job>)
      requires Valid() && HasStatus(rows, n, RUNNING)
      modifies this
      ensures Valid() && State() == Fail(old(State()), n) && FinalStatus(status, rows) == status
      ensures Lists(publish, OwedAfter(w, old(State()), n, Failure))
    {
      ghost var before := State();
      var t := TransitionNode(n, RUNNING, FAILED);
      history := history + [NodeFailed(n)];
      publish := HandleFailure(n);
      FailureCommits(before, n, State());
      FailureOwes(w, before, n, publish);
    }

    /** The completion half of `process_job`, under the execution row lock. */
    method CompleteJob(n: NodeId, outcome: Outcome) returns (publish: seq<Job>)
      requires Valid() && IsNode(w, n)
      modifies this
      ensures Valid()
      ensures State() == Complete(w, old(State()), n, outcome)
      ensures Lists(publish, OwedAfter(w, old(State()), n, outcome))
      ensures old(rows)[n].status != RUNNING ==> State() == old(State()) && publish == []
      ensures old(rows)[n].status == RUNNING && outcome.Success? ==> rows.Keys == old(rows).Keys
      ensures old(rows)[n].status == RUNNING && outcome.Success? ==>
        forall x :: x in old(rows) ==> RowAfterSuccess(w, old(rows), n, outcome.output, x, rows[x])
      ensures old(rows)[n].status == RUNNING && outcome.Success? ==>
        && ledger == old(ledger) && history == old(history) + [NodeSucceeded(n)]
        && status == StatusAfterSuccess(old(status), rows)
      ensures old(rows)[n].status == RUNNING && outcome.Failure? ==> AfterFailure(old(State()), n, State())
      ensures old(rows)[n].status == RUNNING ==> PublishesQueued(old(rows), rows, publish)
    {
      if rows[n].status != RUNNING {
        return [];
      }
      ghost var before := State();
      match outcome {
        case Success(output) => publish := ApplySuccess(n, output);
        case Failure => publish := ApplyFailure(n);
      }
      FinishExecution();
      CompleteIsExact(w, before, n, outcome, publish);
    }

    /** The check whether the whole execution is done. */
    method FinishExecution()
      modifies this`status
      ensures status == FinalStatus(old(status), rows)
    {
      if AllTerminal(rows) && status == EXEC_RUNNING {
        var final := EXEC_SUCCEEDED;
        if AnyFailed(rows) {
          final := EXEC_FAILED;
        }
        var e := TransitionExecution(EXEC_RUNNING, final);
      }
    }

    // ----- claim, recovery, manual retry, manual resolution -----

    /** The first transaction of `process_job`. */
    method ClaimJob(n: NodeId) returns (r: ClaimOutcome)
      modifies this
      ensures State() == Claim(old(State()), n)
      ensures r == Claimed <==> n in old(rows) && old(rows)[n].status == QUEUED
      ensures r == NothingToDo <==>
        n !in old(rows) || old(rows)[n].status in {SUCCEEDED, FAILED, SKIPPED, DEAD_LETTERED}
      ensures r == Claimed ==>
        && rows == old(rows)[n := old(rows)[n].(status := RUNNING)] && history == old(history) + [NodeStarted(n)]
        && status == old(status) && ledger == old(ledger)
      ensures r != Claimed ==> State() == old(State())
    {
      if n !in rows {
        return NothingToDo;
      }
      if Terminal(rows[n].status) {
        return NothingToDo;
      }
      var t := TransitionNode(n, QUEUED, RUNNING);
      if t.Err? {
        return Rejected;
      }
      history := history + [NodeStarted(n)];
      r := Claimed;
    }

    /** The first transaction of `process_recovered_job`; `proceed` tells whether it goes on to `process_job`. */
    method RecoverJob(n: NodeId) returns (proceed: bool)
      modifies this
      ensures State() == Revert(old(State()), n)
      ensures proceed <==> n in old(rows) && old(rows)[n].status !in {SUCCEEDED, FAILED, SKIPPED, DEAD_LETTERED}
      ensures n in old(rows) && old(rows)[n].status == RUNNING ==>
        && rows == old(rows)[n := old(rows)[n].(status := QUEUED)] && history == old(history) + [NodeReverted(n)]
        && status == old(status) && ledger == old(ledger)
      ensures n !in old(rows) || old(rows)[n].status != RUNNING ==> State() == old(State())
    {
      if n !in rows {
        return false;
      }
      if Terminal(rows[n].status) {
        return false;
      }
      if rows[n].status == RUNNING {
        rows := rows[n := rows[n].(status := QUEUED)];
        history := history + [NodeReverted(n)];
      }
      proceed := true;
    }

    /** `retry_node`: an error leaves everything as it was. */
    method RetryNode(n: NodeId) returns (r: Result<Job, AppError>)
      modifies this
      ensures State() == Retry(old(State()), n)
      ensures r.Ok? <==> CanRetry(old(State()), n)
      ensures r.Ok? ==> r.value == Job(n, old(rows)[n].attempt + 1)
      ensures n !in old(rows) ==> r == Err(NotFound)
      ensures n in old(rows) && old(rows)[n].status != DEAD_LETTERED ==> r == Err(InvalidState)
      ensures HasStatus(old(rows), n, DEAD_LETTERED) && !CanRetry(old(State()), n) ==> r == Err(MultipleResults)
      ensures r.Err? ==> State() == old(State())
      ensures r == Err(MultipleResults) <==>
        && n in old(rows) && old(rows)[n].status == DEAD_LETTERED
        && exists i, j :: 0 <= i < j < |old(ledger)| && OpenRow(old(ledger)[i], n) && OpenRow(old(ledger)[j], n)
      ensures r.Ok? ==>
        && rows == old(rows)[n := old(rows)[n].(status := QUEUED, attempt := old(rows)[n].attempt + 1)]
        && status == old(status) && history == old(history) + [NodeRetried(n)]
        && |ledger| == |old(ledger)|
        && forall k :: 0 <= k < |ledger| ==>
             ledger[k] == DeadLetter(old(ledger)[k].node, old(ledger)[k].attempts,
                                     old(ledger)[k].resolved || old(ledger)[k].node == n)
    {
      if n !in rows {
        return Err(NotFound);
      }
      if rows[n].status != DEAD_LETTERED {
        return Err(InvalidState);
      }
      var saved := rows;
      var t := TransitionNode(n, DEAD_LETTERED, QUEUED);
      var open := Unresolved(ledger, n);
      ManyOpenRows(ledger, n);
      if |open| > 1 {
        rows := saved;  // the lookup raises before the commit
        return Err(MultipleResults);
      }
      SingleRowResolution(ledger, n);
      if open != {} {
        var k :| k in open;
        ledger := ledger[k := ledger[k].(resolved := true)];
      }
      history := history + [NodeRetried(n)];
      r := Ok(Job(n, t.value.attempt));
    }

    /** `resolve_dlq_job`. */
    method ResolveDeadLetter(k: nat) returns (r: Result<DeadLetter, AppError>)
      modifies this`ledger
      ensures State() == old(State()).(ledger := ResolveRow(old(ledger), k))
      ensures r == if k < |old(ledger)| then Ok(old(ledger)[k].(resolved := true)) else Err(NotFound)
      ensures |ledger| == |old(ledger)|
      ensures forall i :: 0 <= i < |ledger| ==>
        ledger[i] == DeadLetter(old(ledger)[i].node, old(ledger)[i].attempts, old(ledger)[i].resolved || i == k)
    {
      if k >= |ledger| {
        return Err(NotFound);
      }
      ledger := ledger[k := ledger[k].(resolved := true)];
      r := Ok(ledger[k]);
    }

    // ----- starting an execution -----

    /** One PENDING row per node. */
    constructor (w: Workflow)
      requires Distinct(Ids(w.nodes)) && EdgesWithin(Ids(w.nodes), w.edges)
      ensures this.w == w && Valid()
      ensures status == CREATED && ledger == [] && history == [] && rows == FreshRows(w, w.nodes)
    {
      this.w := w;
      status, rows, ledger, history := CREATED, map[], [], [];
      new;
      assert FreshRows(w, w.nodes[..0]) == map[];
      for k := 0 to |w.nodes|
        invariant rows == FreshRows(w, w.nodes[..k])
        invariant status == CREATED && ledger == [] && history == []
      {
        FreshOneMore(w, k);
        rows := rows[w.nodes[k].id := NodeRow(PENDING, 0, ResolveRetry(w.nodes[k], w), None)];
      }
      assert w.nodes[..|w.nodes|] == w.nodes;
    }

    /** The loop that queues the roots. */
    method QueueRoots(roots: set<NodeId>)
      requires Distinct(Ids(w.nodes)) && rows.Keys == DagValidator.Elements(Ids(w.nodes))
      requires forall n :: n in rows ==> rows[n].status == PENDING
      modifies this`rows
      ensures rows == WithQueued(old(rows), roots)
    {
      ghost var before := rows;
      assert WithQueued(before, RootsAmong(roots, w.nodes[..0])) == before;
      hide WithQueued, RootsAmong, Distinct;
      for k := 0 to |w.nodes|
        invariant rows == WithQueued(before, RootsAmong(roots, w.nodes[..k]))
      {
        var id := w.nodes[k].id;
        QueueStep(w, before, roots, k);
        if id in roots {
          var t := TransitionNode(id, PENDING, QUEUED);
        }
      }
      assert w.nodes[..|w.nodes|] == w.nodes;
      QueuedAll(w, before, roots);
    }

    /** The publish loop of `start_execution`. */
    method RootsToPublish(roots: set<NodeId>) returns (publish: seq<Job>)
      requires Distinct(Ids(w.nodes)) && forall n ::
        n in Ids(w.nodes) && n in roots ==> n in rows && rows[n].attempt == 1
      ensures Lists(publish, RootJobsOf(roots, w.nodes))
    {
      publish := [];
      for k := 0 to |w.nodes|
        invariant Lists(publish, RootJobsOf(roots, w.nodes[..k]))
      {
        var id := w.nodes[k].id;
        RootJobsOneMore(w, roots, k);
        if id in roots {
          ListsOneMore(publish, RootJobsOf(roots, w.nodes[..k]), Job(id, 1));
          publish := publish + [Job(id, rows[id].attempt)];
        }
      }
      assert w.nodes[..|w.nodes|] == w.nodes;
    }
  }

  /** `start_execution` after the validation: persist, queue the roots, and hand back the jobs to publish. */
  method Launch(w: Workflow, roots: set<NodeId>) returns (store: Store, publish: seq<Job>)
    requires Distinct(Ids(w.nodes)) && EdgesWithin(Ids(w.nodes), w.edges)
    requires forall n :: n in roots <==> IsRoot(w, n)
    ensures fresh(store) && store.w == w && store.Valid()
    ensures store.State() == Started(w) && Lists(publish, RootJobs(w))
  {
    store := new Store(w);
    var e := store.TransitionExecution(CREATED, EXEC_RUNNING);
    store.QueueRoots(roots);
    publish := store.RootsToPublish(roots);
    StartCommits(w, roots);
  }

  /** `start_execution`: validate, then launch. */
  method StartExecution(w: Workflow, kinds: set<string>, accepts: NodeDef -> bool)
    returns (r: Result<Store, AppError>, publish: seq<Job>)
    ensures r.Ok? <==> ValidWorkflow(w) && forall d :: d in w.nodes ==> d.kind in kinds && accepts(d)
    ensures r.Ok? ==>
      && fresh(r.value) && r.value.w == w && r.value.Valid()
      && r.value.State() == Started(w) && Lists(publish, RootJobs(w))
    ensures r.Ok? ==>
      && r.value.status == EXEC_RUNNING && r.value.ledger == [] && r.value.history == []
      && StartsWith(w, r.value.rows) && PublishesRoots(w, publish)
    ensures r.Err? ==> publish == [] && r.error.Invalid? && DagValidator.FirstFailure(w, kinds, accepts, r.error.error)
  {
    hide StartsWith, PublishesRoots, DagValidator.FirstFailure, Lists, RootJobs, StartRows, Acyclic, IsRoot;
    publish := [];
    var v := DagValidator.ValidateWorkflow(w, kinds, accepts);
    if v.Err? {
      return Err(Invalid(v.error)), [];
    }
    var store;
    store, publish := Launch(w, DagValidator.Elements(v.value.roots));
    StartIsExact(w);
    RootsAreExact(w, publish);
    r := Ok(store);
  }

  // ----- the contracts, said of the rows themselves -----

  ghost predicate HasNoParent(w: Workflow, n: NodeId) {
    forall e :: e in w.edges ==> e.to != n
  }

  /** The row a node starts with: its own retry limit, else the workflow's, else 3; queued for its first attempt exactly
      if it has no parent. */
  ghost predicate StartsAs(w: Workflow, d: NodeDef, row: NodeRow) {
    && row.status == (if HasNoParent(w, d.id) then QUEUED else PENDING)
    && row.attempt == (if HasNoParent(w, d.id) then 1 else 0)
    && row.output == None && LimitOf(w, d, row.maxAttempts)
  }

  ghost predicate StartsWith(w: Workflow, rows: map<NodeId, NodeRow>) {
    && (forall n :: n in rows <==> exists d :: d in w.nodes && d.id == n)
    && (forall d :: d in w.nodes ==> d.id in rows && StartsAs(w, d, rows[d.id]))
  }

  /** Published is the first attempt of every node without a parent, once each. */
  ghost predicate PublishesRoots(w: Workflow, publish: seq<Job>) {
    && Distinct(publish)
    && forall j :: j in publish <==>
         j.attempt == 1 && HasNoParent(w, j.node) && exists d :: d in w.nodes && d.id == j.node
  }

  lemma RootsAreExact(w: Workflow, publish: seq<Job>)
    requires Lists(publish, RootJobs(w))
    ensures PublishesRoots(w, publish)
  {
    forall j ensures j in RootJobs(w) <==>
      j.attempt == 1 && HasNoParent(w, j.node) && exists d :: d in w.nodes && d.id == j.node
    {
      NodeHasDef(w.nodes, j.node);
    }
  }

  lemma StartIsExact(w: Workflow)
    requires Distinct(Ids(w.nodes))
    ensures StartsWith(w, Started(w).rows)
  {
    forall n ensures IsNode(w, n) <==> exists d :: d in w.nodes && d.id == n { NodeHasDef(w.nodes, n); }
    forall d | d in w.nodes ensures d.id in Started(w).rows && StartsAs(w, d, Started(w).rows[d.id]) {
      NodeHasDef(w.nodes, d.id);
      DefIsOwn(w.nodes, d);
    }
  }

  /** What the completion check makes of the execution status. */
  ghost function StatusAfterSuccess(status: ExecutionStatus, rows: map<NodeId, NodeRow>): ExecutionStatus {
    if status != EXEC_RUNNING then status
    else if exists n :: n in rows && rows[n].status in {PENDING, QUEUED, RUNNING, RETRYING} then EXEC_RUNNING
    else if exists n :: n in rows && rows[n].status in {FAILED, DEAD_LETTERED} then EXEC_FAILED
    else EXEC_SUCCEEDED
  }

  /** A failed attempt is counted, and retried while fewer than `maxAttempts` were made; else the node is dead. */
  ghost predicate AfterFailure(before: Db, n: NodeId, after: Db)
    requires n in before.rows
  {
    var row := before.rows[n];
    var last := row.attempt >= row.maxAttempts;
    && after.rows == before.rows[n := NodeRow(if last then DEAD_LETTERED else QUEUED,
                                              if last then row.attempt else row.attempt + 1,
                                              row.maxAttempts, row.output)]
    && after.ledger == (if last then before.ledger + [DeadLetter(n, row.attempt, false)] else before.ledger)
    && after.history == before.history + (if last then [NodeFailed(n), NodeDeadLettered(n)] else [NodeFailed(n)])
    && after.status == (if last && before.status == EXEC_RUNNING then EXEC_FAILED else before.status)
  }

  /** Published is, once each, every node that entered the queue, with its new attempt. */
  ghost predicate PublishesQueued(before: map<NodeId, NodeRow>, after: map<NodeId, NodeRow>, publish: seq<Job>) {
    && Distinct(publish)
    && forall j :: j in publish <==>
         && HasStatus(after, j.node, QUEUED) && !HasStatus(before, j.node, QUEUED) && j.attempt == after[j.node].attempt
  }

  /** What `_queue_downstream_nodes` makes of a row: of the PENDING nodes those cut off are SKIPPED, and of the
      others the children of `n` with succeeded parents only are QUEUED; nothing else changes. */
  ghost predicate RowDownstream(w: Workflow, rows: map<NodeId, NodeRow>, n: NodeId, output: Payload, x: NodeId,
                                row: NodeRow)
    requires IsNode(w, n) && x in rows
  {
    if rows[x].status != PENDING then row == rows[x]
    else if CutOff(w, rows, n, output, x) then
      row == NodeRow(SKIPPED, rows[x].attempt, rows[x].maxAttempts, rows[x].output)
    else if Edge(n, x) in w.edges && forall p :: Edge(p, x) in w.edges ==> HasStatus(rows, p, SUCCEEDED) then
      row == NodeRow(QUEUED, rows[x].attempt + 1, rows[x].maxAttempts, rows[x].output)
    else row == rows[x]
  }

  lemma DownstreamIsExact(w: Workflow, before: map<NodeId, NodeRow>, n: NodeId, output: Payload,
                          after: map<NodeId, NodeRow>, publish: seq<Job>)
    requires IsNode(w, n)
    requires ReleaseState(w.edges, WithSkipped(before, SkipClosure(w.edges, before, SkipSeeds(w, n, output))), n,
                          DagValidator.Elements(Children(w.edges, n)), after, publish)
    ensures after.Keys == before.Keys && PublishesQueued(before, after, publish)
    ensures forall x :: x in before ==> RowDownstream(w, before, n, output, x, after[x])
  {
    var skipped := SkipClosure(w.edges, before, SkipSeeds(w, n, output));
    var pruned, handled := WithSkipped(before, skipped), DagValidator.Elements(Children(w.edges, n));
    forall x | x in before ensures RowDownstream(w, before, n, output, x, after[x]) {
      DownstreamRow(w, before, n, output, x);
    }
    forall j ensures j in JobsFor(w.edges, pruned, n, handled) <==>
      HasStatus(after, j.node, QUEUED) && !HasStatus(before, j.node, QUEUED) && j.attempt == after[j.node].attempt
    {
      JobForMember(w.edges, pruned, n, handled, j);
    }
  }

  lemma DownstreamRow(w: Workflow, before: map<NodeId, NodeRow>, n: NodeId, output: Payload, x: NodeId)
    requires IsNode(w, n) && x in before
    ensures
      var pruned := WithSkipped(before, SkipClosure(w.edges, before, SkipSeeds(w, n, output)));
      RowDownstream(w, before, n, output, x,
                    WithEnqueued(w.edges, pruned, n, DagValidator.Elements(Children(w.edges, n)))[x])
  {
    var skipped := SkipClosure(w.edges, before, SkipSeeds(w, n, output));
    forall y | y in skipped ensures HasStatus(before, y, PENDING) {
      SkippedIsPending(w.edges, before, SkipSeeds(w, n, output), y);
    }
    ClosureIsCutOff(w, before, n, output, x);
    PrunedRow(w.edges, before, skipped, n, x);
    hide SkipClosure, CutOff, WithSkipped, WithEnqueued, SkipSeeds;
  }

  lemma PrunedRow(edges: seq<Edge>, before: map<NodeId, NodeRow>, skipped: set<NodeId>, n: NodeId, x: NodeId)
    requires (forall y :: y in skipped ==> HasStatus(before, y, PENDING)) && x in before
    ensures
      var pruned := WithSkipped(before, skipped);
      var after := WithEnqueued(edges, pruned, n, DagValidator.Elements(Children(edges, n)));
      && x in after
      && after[x] ==
           if before[x].status != PENDING then before[x]
           else if x in skipped then before[x].(status := SKIPPED)
           else if Edge(n, x) in edges && AllParentsSucceeded(edges, before, x) then Enqueued(before[x])
           else before[x]
  {
    PrunedRelease(edges, before, skipped, n, x);
  }

  lemma CompleteIsExact(w: Workflow, db: Db, n: NodeId, outcome: Outcome, publish: seq<Job>)
    requires IsNode(w, n) && HasStatus(db.rows, n, RUNNING) && Lists(publish, OwedAfter(w, db, n, outcome))
    ensures
      var after := Complete(w, db, n, outcome);
      && PublishesQueued(db.rows, after.rows, publish)
      && (outcome.Failure? ==> AfterFailure(db, n, after))
      && (outcome.Success? ==>
            && after.rows.Keys == db.rows.Keys
            && (forall x :: x in db.rows ==> RowAfterSuccess(w, db.rows, n, outcome.output, x, after.rows[x]))
            && after.status == StatusAfterSuccess(db.status, after.rows))
  {
    forall j ensures j in OwedAfter(w, db, n, outcome) <==>
      && HasStatus(Complete(w, db, n, outcome).rows, j.node, QUEUED) && !HasStatus(db.rows, j.node, QUEUED)
      && j.attempt == Complete(w, db, n, outcome).rows[j.node].attempt
    {
      OwedIsQueued(w, db, n, outcome, j);
    }
    if outcome.Success? { SucceedIsExact(w, db, n, outcome.output); }
    hide Complete, OwedAfter, RowAfterSuccess, StatusAfterSuccess;
  }

  lemma StatusIsExact(status: ExecutionStatus, rows: map<NodeId, NodeRow>)
    ensures FinalStatus(status, rows) == StatusAfterSuccess(status, rows)
  {
    forall n | n in rows
      ensures Terminal(rows[n].status) <==> rows[n].status !in {PENDING, QUEUED, RUNNING, RETRYING}
    {
      match rows[n].status
      case PENDING => case QUEUED => case RUNNING => case RETRYING =>
      case SUCCEEDED => case FAILED => case SKIPPED => case DEAD_LETTERED =>
    }
    if !AllTerminal(rows) {
      var n :| n in rows && !Terminal(rows[n].status);
      assert rows[n].status in {PENDING, QUEUED, RUNNING, RETRYING};
    }
  }

  lemma SucceedIsExact(w: Workflow, db: Db, n: NodeId, output: Payload)
    requires IsNode(w, n) && HasStatus(db.rows, n, RUNNING)
    ensures
      var after := Complete(w, db, n, Success(output));
      && after.rows.Keys == db.rows.Keys
      && (forall x :: x in db.rows ==> RowAfterSuccess(w, db.rows, n, output, x, after.rows[x]))
      && after.status == StatusAfterSuccess(db.status, after.rows)
  {
    hide RowsAfterSuccess, RowAfterSuccess, FinalStatus, StatusAfterSuccess;
    StatusIsExact(db.status, RowsAfterSuccess(w, db.rows, n, output));
    SuccessIsExact(w, db.rows, n, output, n);
    forall x | x in db.rows
      ensures RowAfterSuccess(w, db.rows, n, output, x, RowsAfterSuccess(w, db.rows, n, output)[x])
    {
      SuccessIsExact(w, db.rows, n, output, x);
    }
  }

  lemma OwedIsQueued(w: Workflow, db: Db, n: NodeId, outcome: Outcome, j: Job)
    requires IsNode(w, n) && HasStatus(db.rows, n, RUNNING)
    ensures j in OwedAfter(w, db, n, outcome) <==>
      && HasStatus(Complete(w, db, n, outcome).rows, j.node, QUEUED) && !HasStatus(db.rows, j.node, QUEUED)
      && j.attempt == Complete(w, db, n, outcome).rows[j.node].attempt
  {
    match outcome
    case Success(output) =>
      OwedAfterSuccess(w, db, n, output, j);
      SuccessEffect(w, db.rows, n, output);
      if j.node in db.rows { assert SuccessAt(w, db.rows, n, output, j.node); }
    case Failure =>
  }

  /** A ledger row of the node that nobody has resolved. */
  predicate OpenRow(row: DeadLetter, n: NodeId) {
    row.node == n && !row.resolved
  }

  lemma ManyOpenRows(ledger: seq<DeadLetter>, n: NodeId)
    ensures |Unresolved(ledger, n)| > 1 <==>
      exists i, j :: 0 <= i < j < |ledger| && OpenRow(ledger[i], n) && OpenRow(ledger[j], n)
  {
    var open := Unresolved(ledger, n);
    if i, j :| 0 <= i < j < |ledger| && OpenRow(ledger[i], n) && OpenRow(ledger[j], n) {
      assert {i, j} <= open;
      SubsetSize({i, j}, open);
    }
    if |open| > 1 {
      var i :| i in open;
      assert open - {i} != {};
      var j :| j in open - {i};
      var lo, hi := if i < j then i else j, if i < j then j else i;
      assert 0 <= lo < hi < |ledger| && OpenRow(ledger[lo], n) && OpenRow(ledger[hi], n);
    }
  }

  // ----- helpers of the loops -----

  /** The elements of a set in some order, as `list(skip_ids)` yields them. */
  method ListOf(s: set<NodeId>) returns (l: seq<NodeId>)
    ensures forall x :: x in l <==> x in s
  {
    l := [];
    var rest := s;
    while rest != {}
      invariant rest <= s && forall x :: x in l <==> x in s && x !in rest
      decreases |rest|
    {
      var x :| x in rest;
      l := l + [x];
      rest := rest - {x};
    }
  }

  method AppendMissing(queue: seq<NodeId>, more: seq<NodeId>) returns (longer: seq<NodeId>)
    ensures forall x :: x in longer <==> x in queue || x in more
  {
    longer := queue;
    for k := 0 to |more|
      invariant forall x :: x in longer <==> x in queue || x in more[..k]
    {
      assert more[..k + 1] == more[..k] + [more[k]];
      if more[k] !in longer {
        longer := longer + [more[k]];
      }
    }
    assert more[..|more|] == more;
  }

  ghost function PendingIn(rows: map<NodeId, NodeRow>): set<NodeId> {
    set x | x in rows && rows[x].status == PENDING
  }

  /** What is skipped or queued is reachable from the seeds through PENDING nodes, and
      everything one step away from what is skipped is skipped or queued. */
  ghost predicate CascadeInv(edges: seq<Edge>, rows: map<NodeId, NodeRow>, seeds: set<NodeId>, skipped: set<NodeId>,
                             queue: seq<NodeId>) {
    && (forall x :: x in skipped ==> x in SkipClosure(edges, rows, seeds))
    && (forall x :: x in queue && HasStatus(rows, x, PENDING) ==> x in SkipClosure(edges, rows, seeds))
    && (forall x :: x in seeds && HasStatus(rows, x, PENDING) ==> x in skipped || x in queue)
    && (forall e :: e in edges && e.from in skipped && HasStatus(rows, e.to, PENDING) ==>
          e.to in skipped || e.to in queue)
  }

  lemma CascadeStep(edges: seq<Edge>, rows: map<NodeId, NodeRow>, seeds: set<NodeId>, skipped: set<NodeId>,
                    queue: seq<NodeId>)
    requires CascadeInv(edges, rows, seeds, skipped, queue) && queue != []
    ensures !HasStatus(rows, queue[0], PENDING) || queue[0] in skipped ==>
      CascadeInv(edges, rows, seeds, skipped, queue[1..])
    ensures HasStatus(rows, queue[0], PENDING) ==>
      forall longer: seq<NodeId> :: (forall x :: x in longer <==> x in queue[1..] || x in Children(edges, queue[0])) ==>
        CascadeInv(edges, rows, seeds, skipped + {queue[0]}, longer)
  {
    var x, rest := queue[0], queue[1..];
    assert forall y :: y in queue <==> y == x || y in rest;
    if HasStatus(rows, x, PENDING) {
      forall longer: seq<NodeId> | (forall y :: y in longer <==> y in rest || y in Children(edges, x))
        ensures CascadeInv(edges, rows, seeds, skipped + {x}, longer)
      {
        forall y | y in longer && HasStatus(rows, y, PENDING) ensures y in SkipClosure(edges, rows, seeds) {
          if y !in rest { ClosureChild(edges, rows, seeds, x, y); }
        }
        forall e | e in edges && e.from in skipped + {x} && HasStatus(rows, e.to, PENDING)
          ensures e.to in skipped + {x} || e.to in longer
        {
          if e.from == x { assert Edge(x, e.to) == e; }
        }
      }
    }
  }

  lemma CascadeDone(edges: seq<Edge>, rows: map<NodeId, NodeRow>, seeds: set<NodeId>, skipped: set<NodeId>)
    requires CascadeInv(edges, rows, seeds, skipped, [])
    ensures skipped == SkipClosure(edges, rows, seeds)
  {
    forall x | x in SkipClosure(edges, rows, seeds) ensures x in skipped {
      var path :| PendingPath(edges, rows, path) && path[0] in seeds && path[|path| - 1] == x;
      PathIsSkipped(edges, rows, seeds, skipped, path);
    }
  }

  lemma {:induction false} PathIsSkipped(edges: seq<Edge>, rows: map<NodeId, NodeRow>, seeds: set<NodeId>,
                                         skipped: set<NodeId>, path: seq<NodeId>)
    requires CascadeInv(edges, rows, seeds, skipped, []) && PendingPath(edges, rows, path) && path[0] in seeds
    ensures path[|path| - 1] in skipped
    decreases |path|
  {
    assert HasStatus(rows, path[|path| - 1], PENDING);
    if |path| > 1 {
      var front := path[..|path| - 1];
      assert PendingPath(edges, rows, front);
      PathIsSkipped(edges, rows, seeds, skipped, front);
      var e := Edge(path[|path| - 2], path[|path| - 1]);
      assert e in edges;
    }
  }

  /** Rows in which exactly the nodes of `skipped` have become SKIPPED. */
  ghost function WithSkipped(rows: map<NodeId, NodeRow>, skipped: set<NodeId>): map<NodeId, NodeRow> {
    map x | x in rows :: if x in skipped then rows[x].(status := SKIPPED) else rows[x]
  }

  lemma SkipOneMore(rows: map<NodeId, NodeRow>, skipped: set<NodeId>, x: NodeId)
    ensures HasStatus(WithSkipped(rows, skipped), x, PENDING) <==> HasStatus(rows, x, PENDING) && x !in skipped
    ensures x in rows ==>
      WithSkipped(rows, skipped)[x := WithSkipped(rows, skipped)[x].(status := SKIPPED)] ==
      WithSkipped(rows, skipped + {x})
    ensures HasStatus(rows, x, PENDING) && x !in skipped ==>
      PendingIn(rows) - (skipped + {x}) < PendingIn(rows) - skipped
  {
    if HasStatus(rows, x, PENDING) && x !in skipped {
      assert x in PendingIn(rows) - skipped;
    }
  }

  lemma CascadeStarts(edges: seq<Edge>, rows: map<NodeId, NodeRow>, seeds: set<NodeId>, queue: seq<NodeId>)
    requires forall x :: x in queue <==> x in seeds
    ensures CascadeInv(edges, rows, seeds, {}, queue) && WithSkipped(rows, {}) == rows
  {
    forall x | x in queue && HasStatus(rows, x, PENDING) ensures x in SkipClosure(edges, rows, seeds) {
      ClosureSeed(edges, rows, seeds, x);
    }
  }

  /** Rows in which exactly the released nodes among `handled` have been enqueued. */
  ghost function WithEnqueued(edges: seq<Edge>, rows: map<NodeId, NodeRow>, n: NodeId,
                              handled: set<NodeId>): map<NodeId, NodeRow> {
    map x | x in rows :: if x in handled && Released(edges, rows, {}, n, x) then Enqueued(rows[x]) else rows[x]
  }

  ghost function JobsFor(edges: seq<Edge>, rows: map<NodeId, NodeRow>, n: NodeId, handled: set<NodeId>): set<Job> {
    set x | x in rows && x in handled && Released(edges, rows, {}, n, x) :: Job(x, rows[x].attempt + 1)
  }

  /** After handling some children of `n`: the released ones are enqueued and listed for publishing. */
  ghost predicate ReleaseState(edges: seq<Edge>, before: map<NodeId, NodeRow>, n: NodeId, handled: set<NodeId>,
                               rows: map<NodeId, NodeRow>, publish: seq<Job>)
  {
    rows == WithEnqueued(edges, before, n, handled) && Lists(publish, JobsFor(edges, before, n, handled))
  }

  lemma ReleaseStep(edges: seq<Edge>, n: NodeId, children: seq<NodeId>, k: nat)
    requires k < |children| && children == Children(edges, n)
    ensures DagValidator.Elements(children[..k + 1]) == DagValidator.Elements(children[..k]) + {children[k]}
    ensures Edge(n, children[k]) in edges
  {
  }

  lemma SameParents(edges: seq<Edge>, before: map<NodeId, NodeRow>, n: NodeId, handled: set<NodeId>, c: NodeId)
    ensures AllParentsSucceeded(edges, WithEnqueued(edges, before, n, handled), c) <==>
      AllParentsSucceeded(edges, before, c)
  {
  }

  /** Handling one more child. */
  lemma ReleaseOne(edges: seq<Edge>, before: map<NodeId, NodeRow>, n: NodeId, handled: set<NodeId>,
                   rows: map<NodeId, NodeRow>, publish: seq<Job>, c: NodeId)
    requires ReleaseState(edges, before, n, handled, rows, publish) && Edge(n, c) in edges
    ensures HasStatus(rows, c, PENDING) && AllParentsSucceeded(edges, rows, c) ==>
      ReleaseState(edges, before, n, handled + {c}, rows[c := Enqueued(rows[c])],
                   publish + [Job(c, rows[c].attempt + 1)])
    ensures !(HasStatus(rows, c, PENDING) && AllParentsSucceeded(edges, rows, c)) ==>
      ReleaseState(edges, before, n, handled + {c}, rows, publish)
  {
    SameParents(edges, before, n, handled, c);
    if HasStatus(rows, c, PENDING) && AllParentsSucceeded(edges, rows, c) {
      ReleaseNew(edges, before, n, handled, c);
      var job := Job(c, before[c].attempt + 1);
      ListsOneMore(publish, JobsFor(edges, before, n, handled), job);
    } else {
      assert c in handled || !Released(edges, before, {}, n, c);
      assert WithEnqueued(edges, before, n, handled + {c}) == rows;
      assert JobsFor(edges, before, n, handled + {c}) == JobsFor(edges, before, n, handled);
    }
  }

  lemma ReleaseNew(edges: seq<Edge>, before: map<NodeId, NodeRow>, n: NodeId, handled: set<NodeId>, c: NodeId)
    requires Edge(n, c) in edges && HasStatus(WithEnqueued(edges, before, n, handled), c, PENDING)
    requires AllParentsSucceeded(edges, before, c)
    ensures
      var rows, job := WithEnqueued(edges, before, n, handled), Job(c, before[c].attempt + 1);
      && rows[c] == before[c]
      && rows[c := Enqueued(rows[c])] == WithEnqueued(edges, before, n, handled + {c})
      && job !in JobsFor(edges, before, n, handled)
      && JobsFor(edges, before, n, handled + {c}) == JobsFor(edges, before, n, handled) + {job}
  {
  }

  lemma ListsOneMore(jobs: seq<Job>, owed: set<Job>, job: Job)
    requires Lists(jobs, owed) && job !in owed
    ensures Lists(jobs + [job], owed + {job})
  {
  }

  // ----- the commits, value by value -----

  lemma NothingDownstream(w: Workflow, rows: map<NodeId, NodeRow>, n: NodeId, output: Payload)
    requires IsNode(w, n) && Children(w.edges, n) == []
    ensures ReleaseState(w.edges, WithSkipped(rows, SkipClosure(w.edges, rows, SkipSeeds(w, n, output))),
             n, {}, rows, [])
    ensures DagValidator.Elements(Children(w.edges, n)) == {}
  {
  }

  /** Skipping and then releasing is what the success transaction commits. */
  lemma DownstreamIsSuccess(w: Workflow, db: Db, n: NodeId, output: Payload)
    requires IsNode(w, n) && HasStatus(db.rows, n, RUNNING)
    ensures
      var done := SucceededRows(w, db.rows, n, output);
      var pruned := WithSkipped(done, SkippedBy(w, db.rows, n, output));
      var handled := DagValidator.Elements(Children(w.edges, n));
      && WithEnqueued(w.edges, pruned, n, handled) == RowsAfterSuccess(w, db.rows, n, output)
      && JobsFor(w.edges, pruned, n, handled) == OwedAfter(w, db, n, Success(output))
  {
    var done, skipped := SucceededRows(w, db.rows, n, output), SkippedBy(w, db.rows, n, output);
    var pruned := WithSkipped(done, skipped);
    forall x | x in skipped ensures HasStatus(done, x, PENDING) {
      SkippedIsPending(w.edges, done, SkipSeeds(w, n, output), x);
    }
    forall x ensures Released(w.edges, pruned, {}, n, x) <==> Released(w.edges, done, skipped, n, x) {
      PrunedRelease(w.edges, done, skipped, n, x);
    }
    JobsAfterPruning(w, db, n, output);
  }

  lemma PrunedRelease(edges: seq<Edge>, done: map<NodeId, NodeRow>, skipped: set<NodeId>, n: NodeId, x: NodeId)
    requires forall y :: y in skipped ==> HasStatus(done, y, PENDING)
    ensures Released(edges, WithSkipped(done, skipped), {}, n, x) <==> Released(edges, done, skipped, n, x)
  {
  }

  lemma JobsAfterPruning(w: Workflow, db: Db, n: NodeId, output: Payload)
    requires IsNode(w, n) && HasStatus(db.rows, n, RUNNING)
    requires
      var done, skipped := SucceededRows(w, db.rows, n, output), SkippedBy(w, db.rows, n, output);
      forall x :: Released(w.edges, WithSkipped(done, skipped), {}, n, x) <==> Released(w.edges, done, skipped, n, x)
    ensures
      JobsFor(w.edges, WithSkipped(SucceededRows(w, db.rows, n, output), SkippedBy(w, db.rows, n, output)), n,
              DagValidator.Elements(Children(w.edges, n))) == OwedAfter(w, db, n, Success(output))
  {
    var done, skipped := SucceededRows(w, db.rows, n, output), SkippedBy(w, db.rows, n, output);
    var pruned, handled := WithSkipped(done, skipped), DagValidator.Elements(Children(w.edges, n));
    var a, b := JobsFor(w.edges, pruned, n, handled), OwedAfter(w, db, n, Success(output));
    forall j ensures j in a <==> j in b {
      JobForMember(w.edges, pruned, n, handled, j);
      OwedAfterSuccess(w, db, n, output, j);
      assert j.node in db.rows ==> pruned[j.node].attempt == db.rows[j.node].attempt;
    }
  }

  lemma JobForMember(edges: seq<Edge>, rows: map<NodeId, NodeRow>, n: NodeId, handled: set<NodeId>, j: Job)
    ensures j in JobsFor(edges, rows, n, handled) <==>
      j.node in rows && j.node in handled && Released(edges, rows, {}, n, j.node) &&
      j.attempt == rows[j.node].attempt + 1
  {
  }

  lemma FailureOwes(w: Workflow, db: Db, n: NodeId, publish: seq<Job>)
    requires IsNode(w, n) && HasStatus(db.rows, n, RUNNING)
    requires publish == if AttemptsLeft(db.rows[n]) then [Job(n, db.rows[n].attempt + 1)] else []
    ensures Lists(publish, OwedAfter(w, db, n, Failure))
  {
  }

  lemma FailureCommits(db: Db, n: NodeId, after: Db)
    requires HasStatus(db.rows, n, RUNNING)
    requires
      var failed := db.rows[n].(status := FAILED);
      after.rows ==
        db.rows[n := failed][n := if AttemptsLeft(failed) then Enqueued(failed) else failed.(status := DEAD_LETTERED)]
    requires AttemptsLeft(db.rows[n]) ==>
      after.status == db.status && after.ledger == db.ledger && after.history == db.history + [NodeFailed(n)]
    requires !AttemptsLeft(db.rows[n]) ==>
      && after.status == (if db.status == EXEC_RUNNING then EXEC_FAILED else db.status)
      && after.ledger == db.ledger + [DeadLetter(n, db.rows[n].attempt, false)]
      && after.history == db.history + [NodeFailed(n)] + [NodeDeadLettered(n)]
    ensures after == Fail(db, n)
    ensures FinalStatus(after.status, after.rows) == after.status
  {
    assert db.history + [NodeFailed(n)] + [NodeDeadLettered(n)] == db.history + [NodeFailed(n), NodeDeadLettered(n)];
    assert after.rows == Fail(db, n).rows;
    if AttemptsLeft(db.rows[n]) { assert after.rows[n].status == QUEUED; }
  }

  /** With at most one open row, resolving that row resolves all rows of the node. */
  lemma SingleRowResolution(ledger: seq<DeadLetter>, n: NodeId)
    requires |Unresolved(ledger, n)| <= 1
    ensures Unresolved(ledger, n) == {} ==> ResolveAll(ledger, n) == ledger
    ensures forall k :: k in Unresolved(ledger, n) ==>
      ResolveAll(ledger, n) == ledger[k := ledger[k].(resolved := true)]
  {
    var open := Unresolved(ledger, n);
    forall j | 0 <= j < |ledger| && ledger[j].node == n && !ledger[j].resolved ensures j in open {}
    forall k | k in open ensures ResolveAll(ledger, n) == ledger[k := ledger[k].(resolved := true)] {
      forall j | j in open ensures j == k {
        if j != k {
          assert {j, k} <= open;
          SubsetSize({j, k}, open);
        }
      }
    }
  }

  lemma SubsetSize<T>(a: set<T>, b: set<T>)
    requires a <= b
    ensures |a| <= |b|
  {
    if a != b { ProperSubsetSize(a, b); }
  }

  // ----- starting -----

  ghost function FreshRows(w: Workflow, nodes: seq<NodeDef>): map<NodeId, NodeRow> {
    map n | n in Ids(nodes) :: NodeRow(PENDING, 0, ResolveRetry(Def(nodes, n), w), None)
  }

  ghost function WithQueued(rows: map<NodeId, NodeRow>, queued: set<NodeId>): map<NodeId, NodeRow> {
    map n | n in rows :: if n in queued then Enqueued(rows[n]) else rows[n]
  }

  ghost function RootsAmong(roots: set<NodeId>, nodes: seq<NodeDef>): set<NodeId> {
    set n | n in Ids(nodes) && n in roots
  }

  lemma QueueStep(w: Workflow, rows: map<NodeId, NodeRow>, roots: set<NodeId>, k: nat)
    requires k < |w.nodes| && Distinct(Ids(w.nodes)) && rows.Keys == DagValidator.Elements(Ids(w.nodes))
    ensures
      var id, done, next := w.nodes[k].id, RootsAmong(roots, w.nodes[..k]), RootsAmong(roots, w.nodes[..k + 1]);
      && id in rows && id in WithQueued(rows, done) && WithQueued(rows, done)[id] == rows[id]
      && WithQueued(rows, next) ==
         if id in roots then WithQueued(rows, done)[id := Enqueued(rows[id])] else WithQueued(rows, done)
  {
  }

  lemma QueuedAll(w: Workflow, rows: map<NodeId, NodeRow>, roots: set<NodeId>)
    requires rows.Keys == DagValidator.Elements(Ids(w.nodes))
    ensures WithQueued(rows, RootsAmong(roots, w.nodes)) == WithQueued(rows, roots)
  {
  }

  ghost function RootJobsOf(roots: set<NodeId>, nodes: seq<NodeDef>): set<Job> {
    set n | n in Ids(nodes) && n in roots :: Job(n, 1)
  }

  lemma IdsPrefix(nodes: seq<NodeDef>, k: nat)
    requires k < |nodes| && Distinct(Ids(nodes))
    ensures Ids(nodes[..k + 1]) == Ids(nodes[..k]) + [nodes[k].id]
    ensures nodes[k].id !in Ids(nodes[..k]) && nodes[k].id in Ids(nodes)
  {
  }

  lemma FreshOneMore(w: Workflow, k: nat)
    requires k < |w.nodes| && Distinct(Ids(w.nodes))
    ensures FreshRows(w, w.nodes[..k + 1]) ==
            FreshRows(w, w.nodes[..k])[w.nodes[k].id := NodeRow(PENDING, 0, ResolveRetry(w.nodes[k], w), None)]
  {
    IdsPrefix(w.nodes, k);
    var shorter, longer := w.nodes[..k], w.nodes[..k + 1];
    assert longer[..|longer| - 1] == shorter && longer[|longer| - 1] == w.nodes[k];
  }

  lemma RootJobsOneMore(w: Workflow, roots: set<NodeId>, k: nat)
    requires k < |w.nodes| && Distinct(Ids(w.nodes))
    ensures
      var id := w.nodes[k].id;
      && Job(id, 1) !in RootJobsOf(roots, w.nodes[..k])
      && RootJobsOf(roots, w.nodes[..k + 1]) ==
           if id in roots then RootJobsOf(roots, w.nodes[..k]) + {Job(id, 1)} else RootJobsOf(roots, w.nodes[..k])
  {
  }

  lemma StartCommits(w: Workflow, roots: set<NodeId>)
    requires forall n :: n in roots <==> IsRoot(w, n)
    ensures WithQueued(FreshRows(w, w.nodes), roots) == StartRows(w)
    ensures RootJobsOf(roots, w.nodes) == RootJobs(w)
  {
  }
}
