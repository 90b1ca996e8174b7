/** When all runs of a workflow agree with its evaluation: a condition that can be
    read off the evaluation before any run, and that is exact. */
module Confluence {
  import opened Graph
  import opened Model
  import opened Transactions
  import opened Invariants
  import opened Histories
  import opened Protocol
  import opened Safety
  import opened Delivery
  import opened Progress
  import opened Evaluation
  import opened Convergence

  ghost predicate AlwaysAgrees(w: Workflow, exec: Executor, t: Verdicts, s: System) {
    forall s' :: CanReach(w, exec, s, s') ==> Agrees(w, t, s'.db)
  }

  lemma StillAgrees(w: Workflow, exec: Executor, t: Verdicts, s: System, s': System)
    requires AlwaysAgrees(w, exec, t, s) && CanReach(w, exec, s, s')
    ensures AlwaysAgrees(w, exec, t, s') && Agrees(w, t, s'.db)
  {
    hide CanReach, Agrees;
    forall later | CanReach(w, exec, s', later) ensures Agrees(w, t, later.db) {
      CanReachTransitive(w, exec, s, s', later);
    }
  }

  lemma ReachEvolves(w: Workflow, exec: Executor, s: System, s': System)
    requires SystemInv(w, s) && CanReach(w, exec, s, s')
    ensures Evolves(s.db, s'.db)
  {
    hide SystemInv, StepTo, Evolves, Path;
    var states: seq<System>, steps: seq<Step> :| PathFromTo(w, exec, s, s', states, steps);
    PathFollows(w, exec, states, steps);
    forall k, l | 0 <= k < l < |states| && l == k + 1 ensures Evolves(states[k].db, states[l].db) {
      InvAlong(w, states, steps, k);
      NextKeepsInv(w, states, steps, k);
    }
    ChainEvolves(states, 0, |steps|);
  }

  // ----- driving chosen nodes to success -----

  /** A node at rest that was queued and that the evaluation completes has SUCCEEDED. */
  lemma RestingIsDone(w: Workflow, t: Verdicts, rows: map<NodeId, NodeRow>, n: NodeId)
    requires RowsShape(w, rows) && RowsAgree(t, rows) && n in t && t[n].Done?
    requires n in rows && !Untouched(rows[n].status) && !Active(rows, n)
    ensures HasStatus(rows, n, SUCCEEDED)
  {
    assert RowShape(w, n, rows[n]) && RowAgrees(rows[n], t[n]);
  }

  /** While all states agree, a queued node that the evaluation completes can be driven to SUCCEEDED, and no other
      node succeeds meanwhile. */
  lemma {:induction false} DriveToSuccess(w: Workflow, exec: Executor, t: Verdicts, s: System,
                                          n: NodeId) returns (s': System)
    requires Sound(w, s) && AlwaysAgrees(w, exec, t, s) && n in t && t[n].Done?
    requires n in s.db.rows && !Untouched(s.db.rows[n].status)
    ensures CanReach(w, exec, s, s') && Sound(w, s') && HasStatus(s'.db.rows, n, SUCCEEDED)
    ensures OnlySucceeds(s.db.rows, s'.db.rows, n)
    decreases NodePotential(s.db, n)
  {
    hide CanReach, AlwaysAgrees, NodePotential, Ownership, NothingLost;
    CanReachSelf(w, exec, s);
    StillAgrees(w, exec, t, s, s);
    if Active(s.db.rows, n) {
      var s1 := DriveNode(w, exec, s, n);
      ReachEvolves(w, exec, s, s1);
      assert RowEvolves(s.db.rows[n], s1.db.rows[n]);
      StillAgrees(w, exec, t, s, s1);
      PotentialNonNegative(s.db, n);
      s' := DriveToSuccess(w, exec, t, s1, n);
      CanReachTransitive(w, exec, s, s1, s');
    } else {
      RestingIsDone(w, t, s.db.rows, n);
      s' := s;
    }
  }

  /** Everything above a node that the evaluation completes is completed too. */
  lemma {:induction false} AncestorsDoneOn(w: Workflow, exec: Executor, t: Verdicts, path: seq<NodeId>)
    requires IsEvaluation(w, exec, t) && IsPath(w.edges, path)
    requires path[|path| - 1] in t && t[path[|path| - 1]].Done?
    ensures path[0] in t && t[path[0]].Done?
    decreases |path|
  {
    if |path| > 1 {
      var front := path[..|path| - 1];
      assert Edge(path[|path| - 2], path[|path| - 1]) in w.edges;
      assert ParentsDone(w, t, path[|path| - 1]);
      assert IsPath(w.edges, front);
      AncestorsDoneOn(w, exec, t, front);
    }
  }

  lemma AncestorsDone(w: Workflow, exec: Executor, t: Verdicts, a: NodeId, c: NodeId)
    requires IsEvaluation(w, exec, t) && c in t && t[c].Done? && ReachesOrSame(w.edges, a, c)
    ensures a in t && t[a].Done?
  {
    if a != c {
      var path :| PathBetween(w.edges, path, a, c);
      AncestorsDoneOn(w, exec, t, path);
    }
  }

  /** A node that the evaluation completes has been queued once its parents have succeeded. */
  lemma ReadyIsStarted(w: Workflow, t: Verdicts, rows: map<NodeId, NodeRow>, n: NodeId)
    requires RowsInv(w, rows) && RowsAgree(t, rows) && n in rows && n in t && t[n].Done?
    requires forall q :: Edge(q, n) in w.edges ==> HasStatus(rows, q, SUCCEEDED)
    ensures !Untouched(rows[n].status)
  {
    assert RowAgrees(rows[n], t[n]);
    assert HasStatus(rows, n, PENDING) ==> Blocked(w, rows, n);
  }

  /** Only nodes above `c` have succeeded. */
  ghost predicate OnlyAbove(w: Workflow, rows: map<NodeId, NodeRow>, c: NodeId) {
    forall n :: HasStatus(rows, n, SUCCEEDED) ==> Reaches(w.edges, n, c)
  }

  ghost predicate DoneUpTo(w: Workflow, rows: map<NodeId, NodeRow>, c: NodeId, order: seq<NodeId>, k: nat)
    requires k <= |order|
  {
    forall j :: 0 <= j < k && Reaches(w.edges, order[j], c) ==> HasStatus(rows, order[j], SUCCEEDED)
  }

  /** The next ancestor of `c` in the order has been queued. */
  lemma NextIsStarted(w: Workflow, exec: Executor, t: Verdicts, rows: map<NodeId, NodeRow>, c: NodeId,
                      order: seq<NodeId>, k: nat)
    requires RowsInv(w, rows) && RowsAgree(t, rows) && IsEvaluation(w, exec, t) && c in t && t[c].Done?
    requires Topological(Ids(w.nodes), w.edges, order) && k < |order| && ReachesOrSame(w.edges, order[k], c)
    requires DoneUpTo(w, rows, c, order, k)
    ensures order[k] in t && t[order[k]].Done? && order[k] in rows && !Untouched(rows[order[k]].status)
  {
    var n := order[k];
    AncestorsDone(w, exec, t, n, c);
    forall q | Edge(q, n) in w.edges ensures HasStatus(rows, q, SUCCEEDED) {
      EdgeThenReaches(w.edges, q, n, c);
      EdgeReaches(w.edges, q, n);
      var j := AncestorComesFirst(w, order, q, k);
    }
    ReadyIsStarted(w, t, rows, n);
  }

  ghost predicate Prepared(w: Workflow, exec: Executor, t: Verdicts, s: System, c: NodeId) {
    Sound(w, s) && AlwaysAgrees(w, exec, t, s) && OnlyAbove(w, s.db.rows, c)
  }

  lemma PreparedAgrees(w: Workflow, exec: Executor, t: Verdicts, s: System, c: NodeId)
    requires Prepared(w, exec, t, s, c)
    ensures RowsInv(w, s.db.rows) && Agrees(w, t, s.db)
  {
    CanReachSelf(w, exec, s);
    StillAgrees(w, exec, t, s, s);
  }

  /** Driving one more ancestor of `c`. */
  lemma DriveAncestor(w: Workflow, exec: Executor, t: Verdicts, s: System, c: NodeId, order: seq<NodeId>, k: nat)
    returns (s': System)
    requires Prepared(w, exec, t, s, c) && IsEvaluation(w, exec, t) && c in t && t[c].Done?
    requires Topological(Ids(w.nodes), w.edges, order) && k < |order| && DoneUpTo(w, s.db.rows, c, order, k)
    requires Reaches(w.edges, order[k], c)
    ensures CanReach(w, exec, s, s') && Prepared(w, exec, t, s', c) && DoneUpTo(w, s'.db.rows, c, order, k + 1)
  {
    hide CanReach, AlwaysAgrees, DbInv, Ownership, NothingLost, TasksOk, StreamOk, IsEvaluation, Topological;
    PreparedAgrees(w, exec, t, s, c);
    NextIsStarted(w, exec, t, s.db.rows, c, order, k);
    s' := DriveToSuccess(w, exec, t, s, order[k]);
    StillAgrees(w, exec, t, s, s');
    ReachEvolves(w, exec, s, s');
    forall j | 0 <= j < k + 1 && Reaches(w.edges, order[j], c) ensures HasStatus(s'.db.rows, order[j], SUCCEEDED) {
      if j < k { assert RowEvolves(s.db.rows[order[j]], s'.db.rows[order[j]]); }
    }
  }

  lemma {:induction false} DriveAncestors(w: Workflow, exec: Executor, t: Verdicts, s: System, c: NodeId,
                                          order: seq<NodeId>, k: nat) returns (s': System)
    requires Prepared(w, exec, t, s, c) && IsEvaluation(w, exec, t) && c in t && t[c].Done?
    requires Topological(Ids(w.nodes), w.edges, order) && k <= |order|
    ensures CanReach(w, exec, s, s') && Prepared(w, exec, t, s', c) && DoneUpTo(w, s'.db.rows, c, order, k)
    decreases k
  {
    hide CanReach, Prepared, IsEvaluation, Topological;
    if k == 0 {
      CanReachSelf(w, exec, s);
      s' := s;
    } else {
      s' := DriveAncestors(w, exec, t, s, c, order, k - 1);
      if Reaches(w.edges, order[k - 1], c) {
        var s1 := s';
        s' := DriveAncestor(w, exec, t, s1, c, order, k - 1);
        CanReachTransitive(w, exec, s, s1, s');
      }
    }
  }

  // ----- the drop happens -----

  /** Where only `c` and its ancestors have succeeded, the branch dropped astray is SKIPPED. */
  lemma AstrayIsSkipped(w: Workflow, t: Verdicts, rows: map<NodeId, NodeRow>, c: NodeId, x: NodeId)
    requires RowsInv(w, rows) && RowsAgree(t, rows) && BranchesDecided(w, rows) && Astray(w, t, c, x) && x in rows
    requires HasStatus(rows, c, SUCCEEDED) && forall n :: HasStatus(rows, n, SUCCEEDED) ==> ReachesOrSame(w.edges, n, c)
    ensures HasStatus(rows, x, SKIPPED)
  {
    assert RowAgrees(rows[c], t[c]);
    assert SeededBy(w, rows, c, x);
    var p :| Edge(p, x) in w.edges && !Reaches(w.edges, p, c);
    if p == c { EdgeReaches(w.edges, c, x); }
    assert !HasStatus(rows, p, SUCCEEDED) && Edge(p, x).to == x;
    assert Untouched(rows[x].status);
  }

  /** If all states agree, whatever the evaluation drops astray it also skips: drive the ancestors of `c` and then `c`
      itself, and no other node. */
  lemma AgreementIsHarmless(w: Workflow, exec: Executor, t: Verdicts, s: System, c: NodeId, x: NodeId)
    requires Prepared(w, exec, t, s, c) && IsEvaluation(w, exec, t) && Astray(w, t, c, x) && x in t
    ensures t[x] == Skipped
  {
    hide CanReach, AlwaysAgrees, Ownership, NothingLost, TasksOk, StreamOk;
    var order := AcyclicHasOrder(Ids(w.nodes), w.edges);
    var s1 := DriveAncestors(w, exec, t, s, c, order, |order|);
    PreparedAgrees(w, exec, t, s1, c);
    ConditionIsStarted(w, exec, t, s1.db.rows, c, order);
    var s2 := DriveToSuccess(w, exec, t, s1, c);
    StillAgrees(w, exec, t, s1, s2);
    AstrayIsSkipped(w, t, s2.db.rows, c, x);
    assert RowAgrees(s2.db.rows[x], t[x]);
  }

  lemma ConditionIsStarted(w: Workflow, exec: Executor, t: Verdicts, rows: map<NodeId, NodeRow>, c: NodeId,
                           order: seq<NodeId>)
    requires RowsInv(w, rows) && RowsAgree(t, rows) && IsEvaluation(w, exec, t) && c in t && t[c].Done?
    requires Topological(Ids(w.nodes), w.edges, order) && DoneUpTo(w, rows, c, order, |order|)
    ensures c in rows && !Untouched(rows[c].status)
  {
    TopologicalCovers(Ids(w.nodes), w.edges, order, c);
    var k :| 0 <= k < |order| && order[k] == c;
    NextIsStarted(w, exec, t, rows, c, order, k);
  }

  // ----- the exact condition -----

  ghost predicate AllRunsAgree(w: Workflow, exec: Executor, t: Verdicts) {
    forall states: seq<System>, steps: seq<Step>, i :: ObeyingRun(w, exec, states, steps) && 0 <= i < |states| ==>
      RowsAgree(t, states[i].db.rows)
  }

  lemma RunsFromStart(w: Workflow, exec: Executor, t: Verdicts, s: System)
    requires ValidWorkflow(w) && w.nodes != [] && Init(w, s) && IsEvaluation(w, exec, t) && AllRunsAgree(w, exec, t)
    ensures AlwaysAgrees(w, exec, t, s)
  {
    forall s' | CanReach(w, exec, s, s') ensures Agrees(w, t, s'.db) {
      var states: seq<System>, steps: seq<Step> :| PathFromTo(w, exec, s, s', states, steps);
      PathFollows(w, exec, states, steps);
      RunEndAgrees(w, exec, t, states, steps);
    }
  }

  lemma RunEndAgrees(w: Workflow, exec: Executor, t: Verdicts, states: seq<System>, steps: seq<Step>)
    requires ObeyingRun(w, exec, states, steps) && IsEvaluation(w, exec, t) && AllRunsAgree(w, exec, t)
    ensures Agrees(w, t, states[|steps|].db)
  {
    hide StepTo, Obeys, IsEvaluation, Agrees, RowsAgree, StepFits;
    RunAgreesIffDropsFit(w, exec, t, states, steps);
    FittingRunAgrees(w, exec, t, states, steps, |steps|);
  }

  lemma StartExists(w: Workflow) returns (s: System)
    ensures Init(w, s) && forall n :: !HasStatus(s.db.rows, n, SUCCEEDED)
  {
    var owed := EnumerateJobs(RootJobs(w));
    s := System(Started(w), [], [Finishing(None, owed)]);
  }

  lemma StartPrepared(w: Workflow, exec: Executor, t: Verdicts, c: NodeId) returns (s: System)
    requires ValidWorkflow(w) && w.nodes != [] && IsEvaluation(w, exec, t) && AllRunsAgree(w, exec, t)
    ensures Prepared(w, exec, t, s, c)
  {
    hide SystemInv, AlwaysAgrees, AllRunsAgree, Ownership, NothingLost, Init;
    s := StartExists(w);
    InitInv(w, s);
    InitNothingLost(w, s);
    RunsFromStart(w, exec, t, s);
  }

  /** The exact condition, known before any run: all runs agree with the evaluation in all their states if and only if
      the evaluation skips, for some other reason, whatever it drops astray. */
  lemma AllRunsAgreeIffHarmless(w: Workflow, exec: Executor, t: Verdicts)
    requires ValidWorkflow(w) && w.nodes != [] && IsEvaluation(w, exec, t)
    ensures AllRunsAgree(w, exec, t) <==> Harmless(w, t)
  {
    hide ObeyingRun, Prepared, Astray, IsEvaluation, Agrees;
    if AllRunsAgree(w, exec, t) {
      forall c, x | Astray(w, t, c, x) && x in t ensures t[x] == Skipped {
        var s := StartPrepared(w, exec, t, c);
        AgreementIsHarmless(w, exec, t, s, c, x);
      }
    }
    if Harmless(w, t) {
      forall states: seq<System>, steps: seq<Step>, i | ObeyingRun(w, exec, states, steps) && 0 <= i < |states|
        ensures RowsAgree(t, states[i].db.rows)
      {
        HarmlessRunAgrees(w, exec, t, states, steps, i);
      }
    }
  }

  lemma HarmlessRunAgrees(w: Workflow, exec: Executor, t: Verdicts, states: seq<System>, steps: seq<Step>, i: nat)
    requires ObeyingRun(w, exec, states, steps) && Harmless(w, t) && IsEvaluation(w, exec, t) && i < |states|
    ensures RowsAgree(t, states[i].db.rows)
  {
    RunAgrees(w, exec, t, states, steps, i);
  }
}
