/** How much work a run can do: executor starts are bounded by the configured
    attempts, plus one for each recovery revert and each manual retry. */
module Work {
  import opened Graph
  import opened Model
  import opened Invariants
  import opened Histories
  import opened Protocol
  import opened Safety
  import opened Theorems

  /** Events counted over all nodes. */
  function Totals(history: seq<Event>): Tally {
    if history == [] then Tally(0, 0, 0, 0, 0, 0)
    else Bump(Totals(history[..|history| - 1]), history[|history| - 1])
  }

  function Plus(a: Tally, b: Tally): Tally {
    Tally(a.started + b.started, a.succeeded + b.succeeded, a.failed + b.failed,
          a.deadLettered + b.deadLettered, a.reverted + b.reverted, a.retried + b.retried)
  }

  function Summed(history: seq<Event>, ids: seq<NodeId>): Tally {
    if ids == [] then Tally(0, 0, 0, 0, 0, 0)
    else Plus(Summed(history, ids[..|ids| - 1]), TallyOf(history, ids[|ids| - 1]))
  }

  lemma BumpPlus(a: Tally, b: Tally, e: Event)
    ensures Plus(Bump(a, e), b) == Bump(Plus(a, b), e) == Plus(a, Bump(b, e))
  {
  }

  lemma {:induction false} SummedAppend(history: seq<Event>, e: Event, ids: seq<NodeId>)
    requires Distinct(ids)
    ensures Summed(history + [e], ids) == if e.node in ids then Bump(Summed(history, ids), e) else Summed(history, ids)
    decreases |ids|
  {
    if ids != [] {
      var front, last := ids[..|ids| - 1], ids[|ids| - 1];
      SummedAppend(history, e, front);
      TallyAppend(history, e, last);
      assert e.node in ids <==> e.node in front || e.node == last;
      BumpPlus(Summed(history, front), TallyOf(history, last), e);
    }
  }

  lemma {:induction false} SummedNothing(ids: seq<NodeId>)
    ensures Summed([], ids) == Tally(0, 0, 0, 0, 0, 0)
    decreases |ids|
  {
    if ids != [] { SummedNothing(ids[..|ids| - 1]); }
  }

  /** Counting all events is summing over the nodes they name. */
  lemma {:induction false} TotalsAreSums(history: seq<Event>, ids: seq<NodeId>)
    requires Distinct(ids) && forall k :: 0 <= k < |history| ==> history[k].node in ids
    ensures Totals(history) == Summed(history, ids)
    decreases |history|
  {
    if history == [] {
      SummedNothing(ids);
    } else {
      var front, last := history[..|history| - 1], history[|history| - 1];
      TotalsAreSums(front, ids);
      SummedAppend(front, last, ids);
      assert history == front + [last];
    }
  }

  /** The sum of the resolved `max_attempts`. */
  function Budget(w: Workflow, ids: seq<NodeId>): nat
    requires forall k :: 0 <= k < |ids| ==> IsNode(w, ids[k])
  {
    if ids == [] then 0
    else
      var n := ids[|ids| - 1];
      assert IsNode(w, n);
      Budget(w, ids[..|ids| - 1]) + ResolveRetry(Def(w.nodes, n), w)
  }

  function RunningCount(rows: map<NodeId, NodeRow>, ids: seq<NodeId>): nat {
    if ids == [] then 0
    else RunningCount(rows, ids[..|ids| - 1]) + if HasStatus(rows, ids[|ids| - 1], RUNNING) then 1 else 0
  }

  lemma {:induction false} SummedBound(w: Workflow, db: Db, ids: seq<NodeId>)
    requires Books(db) && RowsShape(w, db.rows) && forall k :: 0 <= k < |ids| ==> IsNode(w, ids[k])
    ensures
      var all := Summed(db.history, ids);
      && all.started <= Budget(w, ids) + all.reverted + all.retried
      && all.started == all.succeeded + all.failed + all.reverted + RunningCount(db.rows, ids)
    ensures Budget(w, ids) <= 10 * |ids|
    decreases |ids|
  {
    if ids != [] {
      SummedBound(w, db, ids[..|ids| - 1]);
      var n := ids[|ids| - 1];
      assert BalancedAt(db, n) && RowShape(w, n, db.rows[n]);
    }
  }

  /** Over any run: executor starts are at most the sum of `max_attempts` (at most 10 per node), plus one
      per recovery revert and manual retry; and every start ends in one applied outcome or one revert,
      except those of the nodes RUNNING now. */
  lemma BoundedWork(w: Workflow, states: seq<System>, steps: seq<Step>, i: nat)
    requires Execution(w, states, steps) && i < |states|
    ensures
      var all, ids := Totals(states[i].db.history), Ids(w.nodes);
      && all.started <= Budget(w, ids) + all.reverted + all.retried
      && Budget(w, ids) <= 10 * |w.nodes|
      && all.started == all.succeeded + all.failed + all.reverted + RunningCount(states[i].db.rows, ids)
  {
    RunInv(w, states, steps, i);
    TotalsAreSums(states[i].db.history, Ids(w.nodes));
    SummedBound(w, states[i].db, Ids(w.nodes));
  }
}
