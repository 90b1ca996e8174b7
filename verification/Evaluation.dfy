/** The reference semantics of a workflow: one sequential pass over the DAG, with
    no workers, messages or retries.  Every concurrent run agrees with it. */
module Evaluation {
  import opened Graph
  import opened Model
  import opened Transactions
  import opened Invariants
  import opened Protocol
  import opened Safety
  import opened Progress

  /** What becomes of a node: it succeeds, exhausts its attempts, is skipped, or
      waits forever for an ancestor that failed. */
  datatype Verdict = Done(output: Payload) | Exhausted | Skipped | Stuck

  type Verdicts = map<NodeId, Verdict>

  function OutputOf(v: Verdict): Option<Payload> {
    if v.Done? then Some(v.output) else None
  }

  function VerdictOf(outcome: Outcome): Verdict {
    match outcome
    case Success(output) => Done(output)
    case Failure => Exhausted
  }

  function StatusOf(v: Verdict): NodeStatus {
    match v
    case Done(_) => SUCCEEDED
    case Exhausted => DEAD_LETTERED
    case Skipped => SKIPPED
    case Stuck => PENDING
  }

  ghost predicate SkippedAbove(w: Workflow, known: Verdicts, n: NodeId) {
    exists p :: Edge(p, n) in w.edges && p in known && known[p] == Skipped
  }

  /** `c` is a condition that succeeded without choosing its branch `n` below it. */
  ghost predicate Drops(w: Workflow, known: Verdicts, c: NodeId, n: NodeId) {
    && IsNode(w, c) && c in known && known[c].Done? && Reaches(w.edges, c, n)
    && n in UnchosenBranches(Def(w.nodes, c), known[c].output)
  }

  ghost predicate DroppedAbove(w: Workflow, known: Verdicts, n: NodeId) {
    exists c :: Drops(w, known, c, n)
  }

  ghost predicate ParentsDone(w: Workflow, known: Verdicts, n: NodeId) {
    forall p :: Edge(p, n) in w.edges ==> p in known && known[p].Done?
  }

  ghost function Inputs(w: Workflow, known: Verdicts, n: NodeId): Upstream {
    map p | p in Parents(w.edges, n) && p in known :: OutputOf(known[p])
  }

  /** The verdict on `n`, given those on its ancestors. */
  ghost function Judge(w: Workflow, exec: Executor, known: Verdicts, n: NodeId): Verdict {
    if SkippedAbove(w, known, n) || DroppedAbove(w, known, n) then Skipped
    else if ParentsDone(w, known, n) then VerdictOf(exec(n, Inputs(w, known, n)))
    else Stuck
  }

  /** The sequential pass: judge the first `k` nodes of a topological order, one after the other. */
  ghost function Pass(w: Workflow, exec: Executor, order: seq<NodeId>, k: nat): Verdicts
    requires k <= |order|
  {
    if k == 0 then map[]
    else
      var known := Pass(w, exec, order, k - 1);
      known[order[k - 1] := Judge(w, exec, known, order[k - 1])]
  }

  /** `t` solves the recursive equations: each verdict follows from those on the ancestors. */
  ghost predicate IsEvaluation(w: Workflow, exec: Executor, t: Verdicts) {
    && (forall n :: n in t <==> IsNode(w, n))
    && forall n :: n in t ==> t[n] == Judge(w, exec, t, n)
  }

  /** When the evaluation skips a node, said of the configuration: some parent is skipped, or some completed condition
      above has the node as a path that its output does not choose.  In particular no condition skips the branch it
      chose. */
  lemma SkippedIff(w: Workflow, exec: Executor, t: Verdicts, n: NodeId)
    requires IsEvaluation(w, exec, t) && n in t
    ensures t[n] == Skipped <==>
      || (exists p :: Edge(p, n) in w.edges && p in t && t[p] == Skipped)
      || (exists c :: IsNode(w, c) && c in t && t[c].Done? && Reaches(w.edges, c, n) &&
                      NotChosen(Def(w.nodes, c), t[c].output, n))
  {
    forall c | IsNode(w, c) && c in t && t[c].Done?
      ensures n in UnchosenBranches(Def(w.nodes, c), t[c].output) <==> NotChosen(Def(w.nodes, c), t[c].output, n)
    {
      SeedsAreNotChosen(Def(w.nodes, c), t[c].output, n);
    }
    hide UnchosenBranches, NotChosen;
    assert t[n] == Judge(w, exec, t, n);
    if c :| IsNode(w, c) && c in t && t[c].Done? && Reaches(w.edges, c, n) &&
            NotChosen(Def(w.nodes, c), t[c].output, n)
    {
      assert Drops(w, t, c, n);
    }
  }

  // ----- the pass computes the one solution -----

  /** A verdict depends only on the verdicts on ancestors. */
  lemma JudgeLocal(w: Workflow, exec: Executor, a: Verdicts, b: Verdicts, n: NodeId)
    requires forall x :: Reaches(w.edges, x, n) ==> (x in a <==> x in b)
    requires forall x :: Reaches(w.edges, x, n) && x in a ==> a[x] == b[x]
    ensures Judge(w, exec, a, n) == Judge(w, exec, b, n)
  {
    forall p | Edge(p, n) in w.edges ensures Reaches(w.edges, p, n) { EdgeReaches(w.edges, p, n); }
    assert SkippedAbove(w, a, n) <==> SkippedAbove(w, b, n);
    forall c ensures Drops(w, a, c, n) <==> Drops(w, b, c, n) {}
    assert Inputs(w, a, n) == Inputs(w, b, n);
  }

  lemma {:induction false} PassKeys(w: Workflow, exec: Executor, order: seq<NodeId>, k: nat)
    requires k <= |order|
    ensures forall x :: x in Pass(w, exec, order, k) <==> x in order[..k]
    decreases k
  {
    if k > 0 {
      PassKeys(w, exec, order, k - 1);
      assert order[..k] == order[..k - 1] + [order[k - 1]];
    }
  }

  /** Later steps of the pass do not change earlier verdicts. */
  lemma {:induction false} PassStable(w: Workflow, exec: Executor, order: seq<NodeId>, j: nat, k: nat)
    requires Distinct(order) && j < k <= |order|
    ensures order[j] in Pass(w, exec, order, k)
    ensures Pass(w, exec, order, k)[order[j]] == Judge(w, exec, Pass(w, exec, order, j), order[j])
    decreases k
  {
    if j < k - 1 {
      PassStable(w, exec, order, j, k - 1);
      assert order[j] != order[k - 1];
    }
  }

  lemma AncestorComesFirst(w: Workflow, order: seq<NodeId>, x: NodeId, k: nat) returns (j: nat)
    requires ValidWorkflow(w) && Topological(Ids(w.nodes), w.edges, order) && k < |order|
    requires Reaches(w.edges, x, order[k])
    ensures j < k && order[j] == x
  {
    var path :| PathBetween(w.edges, path, x, order[k]);
    PathGoesForward(Ids(w.nodes), w.edges, order, path);
    var i, l :| 0 <= i < l < |order| && order[i] == x && order[l] == order[k];
    assert l == k;
    j := i;
  }

  /** The sequential pass solves the recursive equations. */
  lemma PassIsEvaluation(w: Workflow, exec: Executor, order: seq<NodeId>)
    requires ValidWorkflow(w) && Topological(Ids(w.nodes), w.edges, order)
    ensures IsEvaluation(w, exec, Pass(w, exec, order, |order|))
  {
    var t := Pass(w, exec, order, |order|);
    PassKeys(w, exec, order, |order|);
    assert order[..|order|] == order;
    forall n ensures n in t <==> IsNode(w, n) { TopologicalCovers(Ids(w.nodes), w.edges, order, n); }
    forall n | n in t ensures t[n] == Judge(w, exec, t, n) {
      var k :| 0 <= k < |order| && order[k] == n;
      PassJudgesFinally(w, exec, order, k);
    }
  }

  lemma PassJudgesFinally(w: Workflow, exec: Executor, order: seq<NodeId>, k: nat)
    requires ValidWorkflow(w) && Topological(Ids(w.nodes), w.edges, order) && k < |order|
    ensures
      var t := Pass(w, exec, order, |order|);
      order[k] in t && t[order[k]] == Judge(w, exec, t, order[k])
  {
    var t, known := Pass(w, exec, order, |order|), Pass(w, exec, order, k);
    PassStable(w, exec, order, k, |order|);
    forall x | Reaches(w.edges, x, order[k]) ensures x in t && x in known && t[x] == known[x] {
      var j := AncestorComesFirst(w, order, x, k);
      PassStable(w, exec, order, j, |order|);
      PassStable(w, exec, order, j, k);
    }
    JudgeLocal(w, exec, known, t, order[k]);
  }

  /** The recursive equations have no other solution. */
  lemma EvaluationUnique(w: Workflow, exec: Executor, order: seq<NodeId>, a: Verdicts, b: Verdicts)
    requires ValidWorkflow(w) && Topological(Ids(w.nodes), w.edges, order)
    requires IsEvaluation(w, exec, a) && IsEvaluation(w, exec, b)
    ensures a == b
  {
    forall n | n in a ensures n in b && a[n] == b[n] {
      EvaluationUniqueFor(w, exec, order, a, b, n);
    }
    assert a.Keys == b.Keys;
  }

  lemma EvaluationUniqueFor(w: Workflow, exec: Executor, order: seq<NodeId>, a: Verdicts, b: Verdicts, n: NodeId)
    requires ValidWorkflow(w) && Topological(Ids(w.nodes), w.edges, order) && n in a
    requires IsEvaluation(w, exec, a) && IsEvaluation(w, exec, b)
    ensures n in b && a[n] == b[n]
  {
    TopologicalCovers(Ids(w.nodes), w.edges, order, n);
    var k :| 0 <= k < |order| && order[k] == n;
    EvaluationUniqueAt(w, exec, order, a, b, k);
  }

  lemma {:induction false} EvaluationUniqueAt(w: Workflow, exec: Executor, order: seq<NodeId>, a: Verdicts,
                                              b: Verdicts, k: nat)
    requires ValidWorkflow(w) && Topological(Ids(w.nodes), w.edges, order)
    requires IsEvaluation(w, exec, a) && IsEvaluation(w, exec, b) && k < |order|
    ensures order[k] in a && order[k] in b && a[order[k]] == b[order[k]]
    decreases k
  {
    TopologicalCovers(Ids(w.nodes), w.edges, order, order[k]);
    forall x | Reaches(w.edges, x, order[k]) ensures x in a && x in b && a[x] == b[x] {
      var j := AncestorComesFirst(w, order, x, k);
      EvaluationUniqueAt(w, exec, order, a, b, j);
    }
    JudgeLocal(w, exec, a, b, order[k]);
  }

  // ----- the condition under which branch choice is not a race -----

  predicate IsBranch(def: NodeDef, t: NodeId) {
    def.kind == "condition" && t != "" && t in {Lookup(def.config, "true_path"), Lookup(def.config, "false_path")}
  }

  /** A branch is what some output of the condition leaves unchosen. */
  lemma BranchesCanBeDropped(def: NodeDef, t: NodeId)
    ensures IsBranch(def, t) <==> exists output :: NotChosen(def, output, t)
  {
    if IsBranch(def, t) { assert NotChosen(def, map[], t); }
  }

  ghost predicate BranchSettled(w: Workflow, c: NodeId, t: NodeId) {
    || Reaches(w.edges, c, t)
    || (forall p :: Edge(p, t) in w.edges ==> Reaches(w.edges, p, c))
    || (forall x :: Edge(c, x) !in w.edges)
  }

  /** Each branch target of a condition is no node of the workflow, lies below the
      condition, or has all its parents above it (and so was released before);
      a condition without children skips nothing. */
  ghost predicate BranchesSettled(w: Workflow) {
    forall c, t :: IsNode(w, c) && IsNode(w, t) && IsBranch(Def(w.nodes, c), t) ==> BranchSettled(w, c, t)
  }

  // ----- agreement of the committed state with the evaluation -----

  ghost predicate RowAgrees(row: NodeRow, v: Verdict) {
    && (row.status == SUCCEEDED ==> v.Done? && row.output == Some(v.output))
    && (row.status == SKIPPED ==> v == Skipped)
    && (row.status == DEAD_LETTERED ==> v == Exhausted)
  }

  ghost predicate RowsAgree(t: Verdicts, rows: map<NodeId, NodeRow>) {
    forall n :: n in rows ==> n in t && RowAgrees(rows[n], t[n])
  }

  ghost predicate DroppedBy(w: Workflow, rows: map<NodeId, NodeRow>, c: NodeId, t: NodeId) {
    && IsNode(w, c) && HasStatus(rows, c, SUCCEEDED) && rows[c].output.Some?
    && t in UnchosenBranches(Def(w.nodes, c), rows[c].output.value)
  }

  /** Every branch a succeeded condition dropped below itself is SKIPPED. */
  ghost predicate BranchesDropped(w: Workflow, rows: map<NodeId, NodeRow>) {
    forall c, t :: DroppedBy(w, rows, c, t) && Reaches(w.edges, c, t) ==> HasStatus(rows, t, SKIPPED)
  }

  /** No branch that a succeeded condition dropped, wherever it lies, is still PENDING. */
  ghost predicate BranchesDecided(w: Workflow, rows: map<NodeId, NodeRow>) {
    forall c, t :: SeededBy(w, rows, c, t) ==> !HasStatus(rows, t, PENDING)
  }

  /** The cascade of the succeeded `c` started at `t`. */
  ghost predicate SeededBy(w: Workflow, rows: map<NodeId, NodeRow>, c: NodeId, t: NodeId) {
    && IsNode(w, c) && HasStatus(rows, c, SUCCEEDED) && rows[c].output.Some?
    && t in SkipSeeds(w, c, rows[c].output.value)
  }

  /** Only nodes that the evaluation exhausts ever reach the ledger. */
  ghost predicate LedgerAgrees(t: Verdicts, ledger: seq<DeadLetter>) {
    forall k :: 0 <= k < |ledger| ==> ledger[k].node in t && t[ledger[k].node] == Exhausted
  }

  ghost predicate Agrees(w: Workflow, t: Verdicts, db: Db) {
    RowsAgree(t, db.rows) && BranchesDropped(w, db.rows) && BranchesDecided(w, db.rows) && LedgerAgrees(t, db.ledger)
  }

  /** If the conditions above `n` stand as evaluated, `n` is dropped only when it is SKIPPED. */
  lemma DroppedIsSkipped(w: Workflow, t: Verdicts, rows: map<NodeId, NodeRow>, n: NodeId)
    requires RowsAgree(t, rows) && BranchesDropped(w, rows)
    requires forall x :: Reaches(w.edges, x, n) && x in t && t[x].Done? ==> HasStatus(rows, x, SUCCEEDED)
    ensures DroppedAbove(w, t, n) ==> HasStatus(rows, n, SKIPPED)
  {
    if c :| Drops(w, t, c, n) {
      assert RowAgrees(rows[c], t[c]);
      assert DroppedBy(w, rows, c, n);
    }
  }

  /** A node that was queued evaluates to what its executor makes of its parents' committed outputs. */
  lemma VerdictOfStarted(w: Workflow, exec: Executor, t: Verdicts, rows: map<NodeId, NodeRow>, n: NodeId)
    requires IsEvaluation(w, exec, t) && RowsAgree(t, rows) && BranchesDropped(w, rows) && Causal(w, rows)
    requires n in rows && !Untouched(rows[n].status)
    ensures n in t && t[n] == VerdictOf(exec(n, UpstreamOf(w, rows, n)))
  {
    forall x | Reaches(w.edges, x, n) ensures HasStatus(rows, x, SUCCEEDED) { AncestorsSucceeded(w, rows, x, n); }
    DroppedIsSkipped(w, t, rows, n);
    StartedParents(w, t, rows, n);
  }

  lemma StartedParents(w: Workflow, t: Verdicts, rows: map<NodeId, NodeRow>, n: NodeId)
    requires RowsAgree(t, rows) && Causal(w, rows)
    requires n in rows && !Untouched(rows[n].status)
    ensures !SkippedAbove(w, t, n) && ParentsDone(w, t, n) && Inputs(w, t, n) == UpstreamOf(w, rows, n)
  {
    forall p | Edge(p, n) in w.edges
      ensures HasStatus(rows, p, SUCCEEDED) && p in t && t[p].Done? && rows[p].output == OutputOf(t[p])
    {
      assert Edge(p, n).to == n;
      assert RowAgrees(rows[p], t[p]);
    }
  }

  // ----- success -----

  /** A PENDING seed of the cascade lies below the node that succeeded. */
  lemma SeedIsBelow(w: Workflow, rows: map<NodeId, NodeRow>, n: NodeId, output: Payload, x: NodeId)
    requires RowsInv(w, rows) && BranchesSettled(w) && HasStatus(rows, n, RUNNING)
    requires x in SkipSeeds(w, n, output) && HasStatus(rows, x, PENDING)
    ensures Reaches(w.edges, n, x)
  {
    assert IsBranch(Def(w.nodes, n), x);
    assert BranchSettled(w, n, x);
    if !Reaches(w.edges, n, x) {
      assert Blocked(w, rows, x);
      var p :| Edge(p, x) in w.edges && !HasStatus(rows, p, SUCCEEDED);
      AncestorsSucceeded(w, rows, p, n);
    }
  }

  /** A PENDING branch that `n` drops although it does not lie below `n`. */
  ghost predicate StrayDrop(w: Workflow, rows: map<NodeId, NodeRow>, n: NodeId, output: Payload, x: NodeId)
    requires IsNode(w, n)
  {
    x in SkipSeeds(w, n, output) && HasStatus(rows, x, PENDING) && !Reaches(w.edges, n, x)
  }

  /** Every stray drop hits a node that the evaluation skips anyway. */
  ghost predicate DropsFit(w: Workflow, t: Verdicts, rows: map<NodeId, NodeRow>, n: NodeId, output: Payload)
    requires IsNode(w, n)
  {
    forall x :: StrayDrop(w, rows, n, output, x) ==> x in t && t[x] == Skipped
  }

  /** In the evaluation, `c` drops `x`, which neither lies below `c` nor has all its parents above it: in some
      run `c` comes first and drops `x` astray. */
  ghost predicate Astray(w: Workflow, t: Verdicts, c: NodeId, x: NodeId) {
    && IsNode(w, c) && c in t && t[c].Done? && x in SkipSeeds(w, c, t[c].output)
    && !Reaches(w.edges, c, x) && exists p :: Edge(p, x) in w.edges && !Reaches(w.edges, p, c)
  }

  /** Whatever is dropped astray, the evaluation skips for another reason. */
  ghost predicate Harmless(w: Workflow, t: Verdicts) {
    forall c, x :: Astray(w, t, c, x) && x in t ==> t[x] == Skipped
  }

  /** A static condition that is enough: it does not look at the executor. */
  lemma SettledIsHarmless(w: Workflow, exec: Executor, t: Verdicts)
    requires IsEvaluation(w, exec, t) && BranchesSettled(w)
    ensures Harmless(w, t)
  {
    forall c, x | x in t ensures !Astray(w, t, c, x) {
      if IsNode(w, c) && c in t && t[c].Done? && x in SkipSeeds(w, c, t[c].output) {
        assert IsBranch(Def(w.nodes, c), x);
        assert BranchSettled(w, c, x);
      }
    }
  }

  lemma HarmlessDropsFit(w: Workflow, t: Verdicts, rows: map<NodeId, NodeRow>, n: NodeId, output: Payload)
    requires RowsInv(w, rows) && Harmless(w, t) && RowsAgree(t, rows)
    requires HasStatus(rows, n, RUNNING) && n in t && t[n] == Done(output)
    ensures DropsFit(w, t, rows, n, output)
  {
    forall x | StrayDrop(w, rows, n, output, x) ensures x in t && t[x] == Skipped {
      assert Blocked(w, rows, x);
      var p :| Edge(p, x) in w.edges && !HasStatus(rows, p, SUCCEEDED);
      if Reaches(w.edges, p, n) { AncestorsSucceeded(w, rows, p, n); }
      assert Astray(w, t, n, x);
    }
  }

  lemma SeedIsSkipped(w: Workflow, exec: Executor, t: Verdicts, rows: map<NodeId, NodeRow>, n: NodeId,
                      output: Payload, x: NodeId)
    requires IsNode(w, n) && DropsFit(w, t, rows, n, output)
    requires IsEvaluation(w, exec, t) && n in t && t[n] == Done(output) && x in t
    requires x in SkipSeeds(w, n, output) && HasStatus(rows, x, PENDING)
    ensures t[x] == Skipped
  {
    if Reaches(w.edges, n, x) {
      assert Drops(w, t, n, x);
    } else {
      assert StrayDrop(w, rows, n, output, x);
    }
  }

  /** Along the cascade, skipping spreads in the evaluation too. */
  lemma {:induction false} SkippedSpreads(w: Workflow, exec: Executor, t: Verdicts, path: seq<NodeId>)
    requires IsEvaluation(w, exec, t) && IsPath(w.edges, path)
    requires forall i :: 0 <= i < |path| ==> path[i] in t
    requires t[path[0]] == Skipped
    ensures t[path[|path| - 1]] == Skipped
    decreases |path|
  {
    if |path| > 1 {
      var front := path[..|path| - 1];
      SkippedSpreads(w, exec, t, front);
      var x := path[|path| - 1];
      assert Edge(path[|path| - 2], x) in w.edges;
      assert SkippedAbove(w, t, x);
    }
  }

  /** How the cascade came to skip `x`. */
  lemma CascadePath(w: Workflow, rows: map<NodeId, NodeRow>, n: NodeId, output: Payload,
                    x: NodeId) returns (path: seq<NodeId>)
    requires IsNode(w, n) && HasStatus(rows, n, RUNNING) && x in SkippedBy(w, rows, n, output)
    ensures IsPath(w.edges, path) && path[0] in SkipSeeds(w, n, output) && path[|path| - 1] == x
    ensures forall i :: 0 <= i < |path| ==> HasStatus(rows, path[i], PENDING)
  {
    var done := SucceededRows(w, rows, n, output);
    assert SkipReaches(w.edges, done, SkipSeeds(w, n, output), x);
    path :| PendingPath(w.edges, done, path) && path[0] in SkipSeeds(w, n, output) && path[|path| - 1] == x;
    assert forall i :: 0 <= i < |path| ==> HasStatus(done, path[i], PENDING);
  }

  /** Everything the cascade skips is skipped by the evaluation. */
  lemma CascadeIsSkipped(w: Workflow, exec: Executor, t: Verdicts, rows: map<NodeId, NodeRow>, n: NodeId,
                         output: Payload, x: NodeId)
    requires IsNode(w, n) && HasStatus(rows, n, RUNNING) && DropsFit(w, t, rows, n, output)
    requires IsEvaluation(w, exec, t) && n in t && t[n] == Done(output) && RowsAgree(t, rows)
    requires x in SkippedBy(w, rows, n, output)
    ensures x in t && t[x] == Skipped
  {
    var path := CascadePath(w, rows, n, output, x);
    SeedIsSkipped(w, exec, t, rows, n, output, path[0]);
    SkippedSpreads(w, exec, t, path);
  }

  /** After a success the rows agree with the evaluation exactly if every stray drop fits it. */
  lemma SuccessAgrees(w: Workflow, exec: Executor, t: Verdicts, rows: map<NodeId, NodeRow>, n: NodeId, output: Payload)
    requires IsNode(w, n) && HasStatus(rows, n, RUNNING)
    requires IsEvaluation(w, exec, t) && RowsAgree(t, rows) && n in t && t[n] == Done(output)
    ensures RowsAgree(t, RowsAfterSuccess(w, rows, n, output)) <==> DropsFit(w, t, rows, n, output)
  {
    if DropsFit(w, t, rows, n, output) {
      forall x | x in SkippedBy(w, rows, n, output) ensures x in t && t[x] == Skipped {
        CascadeIsSkipped(w, exec, t, rows, n, output, x);
      }
      SuccessAgreesAt(w, t, rows, n, output);
    }
    AgreementFits(w, t, rows, n, output);
  }

  lemma AgreementFits(w: Workflow, t: Verdicts, rows: map<NodeId, NodeRow>, n: NodeId, output: Payload)
    requires IsNode(w, n) && HasStatus(rows, n, RUNNING)
    ensures RowsAgree(t, RowsAfterSuccess(w, rows, n, output)) ==> DropsFit(w, t, rows, n, output)
  {
    var after := RowsAfterSuccess(w, rows, n, output);
    forall x | StrayDrop(w, rows, n, output, x) ensures HasStatus(after, x, SKIPPED) {
      ClosureSeed(w.edges, SucceededRows(w, rows, n, output), SkipSeeds(w, n, output), x);
    }
  }

  lemma SuccessAgreesAt(w: Workflow, t: Verdicts, rows: map<NodeId, NodeRow>, n: NodeId, output: Payload)
    requires HasStatus(rows, n, RUNNING) && IsNode(w, n) && RowsAgree(t, rows) && t[n] == Done(output)
    requires forall x :: x in SkippedBy(w, rows, n, output) ==> x in t && t[x] == Skipped
    ensures RowsAgree(t, RowsAfterSuccess(w, rows, n, output))
  {
    SuccessEffect(w, rows, n, output);
    var after := RowsAfterSuccess(w, rows, n, output);
    forall x | x in after ensures x in t && RowAgrees(after[x], t[x]) {
      assert SuccessAt(w, rows, n, output, x);
      assert RowAgrees(rows[x], t[x]);
    }
  }

  lemma SuccessDropsBranches(w: Workflow, rows: map<NodeId, NodeRow>, n: NodeId, output: Payload)
    requires RowsInv(w, rows) && BranchesDropped(w, rows) && HasStatus(rows, n, RUNNING)
    ensures BranchesDropped(w, RowsAfterSuccess(w, rows, n, output))
  {
    var after := RowsAfterSuccess(w, rows, n, output);
    forall c, x | DroppedBy(w, after, c, x) && Reaches(w.edges, c, x) ensures HasStatus(after, x, SKIPPED) {
      OutputAfterSuccess(w, rows, n, output, c);
      if c == n {
        DropsBelow(w, rows, n, output, x);
      } else {
        assert DroppedBy(w, rows, c, x);
        SkippedAfterSuccess(w, rows, n, output, x);
      }
    }
  }

  lemma SuccessDecidesBranches(w: Workflow, rows: map<NodeId, NodeRow>, n: NodeId, output: Payload)
    requires IsNode(w, n) && BranchesDecided(w, rows) && HasStatus(rows, n, RUNNING)
    ensures BranchesDecided(w, RowsAfterSuccess(w, rows, n, output))
  {
    var after := RowsAfterSuccess(w, rows, n, output);
    forall c, x | SeededBy(w, after, c, x) ensures !HasStatus(after, x, PENDING) {
      OutputAfterSuccess(w, rows, n, output, c);
      if c != n { assert SeededBy(w, rows, c, x); }
      PendingBefore(w, rows, n, output, x);
    }
  }

  /** What is PENDING after a success was PENDING before, and is no branch that was just dropped. */
  lemma PendingBefore(w: Workflow, rows: map<NodeId, NodeRow>, n: NodeId, output: Payload, x: NodeId)
    requires IsNode(w, n) && HasStatus(rows, n, RUNNING)
    ensures HasStatus(RowsAfterSuccess(w, rows, n, output), x, PENDING) ==>
      HasStatus(rows, x, PENDING) && x !in SkipSeeds(w, n, output)
  {
    SuccessEffect(w, rows, n, output);
    if x in rows {
      assert SuccessAt(w, rows, n, output, x);
      if x in SkipSeeds(w, n, output) && HasStatus(rows, x, PENDING) {
        ClosureSeed(w.edges, SucceededRows(w, rows, n, output), SkipSeeds(w, n, output), x);
      }
    }
  }

  lemma OutputAfterSuccess(w: Workflow, rows: map<NodeId, NodeRow>, n: NodeId, output: Payload, c: NodeId)
    requires IsNode(w, n) && HasStatus(rows, n, RUNNING) &&
      HasStatus(RowsAfterSuccess(w, rows, n, output), c, SUCCEEDED)
    ensures c == n ==> RowsAfterSuccess(w, rows, n, output)[c].output == Some(output)
    ensures c != n ==> HasStatus(rows, c, SUCCEEDED) && RowsAfterSuccess(w, rows, n, output)[c] == rows[c]
  {
  }

  lemma SkippedAfterSuccess(w: Workflow, rows: map<NodeId, NodeRow>, n: NodeId, output: Payload, x: NodeId)
    requires IsNode(w, n) && HasStatus(rows, n, RUNNING) && HasStatus(rows, x, SKIPPED)
    ensures HasStatus(RowsAfterSuccess(w, rows, n, output), x, SKIPPED)
  {
  }

  lemma DropsBelow(w: Workflow, rows: map<NodeId, NodeRow>, n: NodeId, output: Payload, x: NodeId)
    requires RowsInv(w, rows) && HasStatus(rows, n, RUNNING)
    requires Reaches(w.edges, n, x) && x in UnchosenBranches(Def(w.nodes, n), output)
    ensures HasStatus(RowsAfterSuccess(w, rows, n, output), x, SKIPPED)
  {
    var c := ReachesFirstEdge(w.edges, n, x);
    var p := ReachesLastEdge(w.edges, n, x);
    assert Edge(p, x).to == x && IsNode(w, x);
    SuccessEffect(w, rows, n, output);
    assert SuccessAt(w, rows, n, output, x);
    if !Untouched(rows[x].status) {
      AncestorsSucceeded(w, rows, n, x);
    } else if rows[x].status == PENDING {
      assert x in SkipSeeds(w, n, output);
      ClosureSeed(w.edges, SucceededRows(w, rows, n, output), SkipSeeds(w, n, output), x);
    }
  }

  // ----- every transaction of a deterministic executor -----

  /** The outcome applied is the one the executor computes from the committed parents. */
  ghost predicate TxnObeys(w: Workflow, exec: Executor, db: Db, txn: Txn) {
    txn.CompleteTxn? && HasStatus(db.rows, txn.node, RUNNING) ==>
      txn.outcome == exec(txn.node, UpstreamOf(w, db.rows, txn.node))
  }

  lemma MoveAgrees(w: Workflow, t: Verdicts, rows: map<NodeId, NodeRow>, n: NodeId, row: NodeRow)
    requires RowsAgree(t, rows) && BranchesDropped(w, rows) && BranchesDecided(w, rows) && n in rows
    requires StartedStatus(rows[n].status) && StartedStatus(row.status)
    requires row.status == DEAD_LETTERED ==> n in t && t[n] == Exhausted
    ensures RowsAgree(t, rows[n := row]) && BranchesDropped(w, rows[n := row]) && BranchesDecided(w, rows[n := row])
  {
    var after := rows[n := row];
    forall c, x | DroppedBy(w, after, c, x) && Reaches(w.edges, c, x) ensures HasStatus(after, x, SKIPPED) {
      assert c != n;
      assert DroppedBy(w, rows, c, x);
    }
    forall c, x | SeededBy(w, after, c, x) ensures !HasStatus(after, x, PENDING) {
      assert SeededBy(w, rows, c, x);
    }
  }

  lemma FailAgrees(w: Workflow, t: Verdicts, db: Db, n: NodeId)
    requires Agrees(w, t, db) && HasStatus(db.rows, n, RUNNING) && n in t && t[n] == Exhausted
    ensures Agrees(w, t, Fail(db, n))
  {
    if AttemptsLeft(db.rows[n]) {
      MoveAgrees(w, t, db.rows, n, Enqueued(db.rows[n]));
    } else {
      MoveAgrees(w, t, db.rows, n, db.rows[n].(status := DEAD_LETTERED));
    }
  }

  ghost predicate OutcomeFits(w: Workflow, t: Verdicts, rows: map<NodeId, NodeRow>, n: NodeId, outcome: Outcome)
    requires IsNode(w, n)
  {
    outcome.Success? && HasStatus(rows, n, RUNNING) ==> DropsFit(w, t, rows, n, outcome.output)
  }

  lemma CompleteAgrees(w: Workflow, exec: Executor, t: Verdicts, db: Db, n: NodeId, outcome: Outcome)
    requires RowsInv(w, db.rows) && IsEvaluation(w, exec, t) && Agrees(w, t, db)
    requires HasStatus(db.rows, n, RUNNING) && n in t && t[n] == VerdictOf(outcome)
    requires OutcomeFits(w, t, db.rows, n, outcome)
    ensures Agrees(w, t, Complete(w, db, n, outcome))
  {
    match outcome
    case Success(output) =>
      SuccessAgrees(w, exec, t, db.rows, n, output);
      SuccessDropsBranches(w, db.rows, n, output);
      SuccessDecidesBranches(w, db.rows, n, output);
    case Failure => FailAgrees(w, t, db, n);
  }

  lemma ClaimAgrees(w: Workflow, t: Verdicts, db: Db, n: NodeId)
    requires Agrees(w, t, db)
    ensures Agrees(w, t, Claim(db, n))
  {
    if HasStatus(db.rows, n, QUEUED) { MoveAgrees(w, t, db.rows, n, db.rows[n].(status := RUNNING)); }
  }

  lemma RevertAgrees(w: Workflow, t: Verdicts, db: Db, n: NodeId)
    requires Agrees(w, t, db)
    ensures Agrees(w, t, Revert(db, n))
  {
    if HasStatus(db.rows, n, RUNNING) { MoveAgrees(w, t, db.rows, n, db.rows[n].(status := QUEUED)); }
  }

  lemma RetryAgrees(w: Workflow, t: Verdicts, db: Db, n: NodeId)
    requires Agrees(w, t, db)
    ensures Agrees(w, t, Retry(db, n))
  {
    if CanRetry(db, n) { MoveAgrees(w, t, db.rows, n, Enqueued(db.rows[n])); }
  }

  lemma OutcomeAgrees(w: Workflow, exec: Executor, t: Verdicts, db: Db, n: NodeId)
    requires RowsInv(w, db.rows) && IsEvaluation(w, exec, t) && Agrees(w, t, db)
    requires HasStatus(db.rows, n, RUNNING) && OutcomeFits(w, t, db.rows, n, exec(n, UpstreamOf(w, db.rows, n)))
    ensures Agrees(w, t, Complete(w, db, n, exec(n, UpstreamOf(w, db.rows, n))))
  {
    VerdictOfStarted(w, exec, t, db.rows, n);
    CompleteAgrees(w, exec, t, db, n, exec(n, UpstreamOf(w, db.rows, n)));
  }

  lemma ResolveAgrees(w: Workflow, t: Verdicts, db: Db, k: nat)
    requires Agrees(w, t, db)
    ensures Agrees(w, t, db.(ledger := ResolveRow(db.ledger, k)))
  {
  }

  /** Transactions that apply no outcome agree whatever the executor does. */
  lemma OtherTxnAgrees(w: Workflow, t: Verdicts, db: Db, txn: Txn)
    requires Agrees(w, t, db) && TxnOk(w, txn)
    requires txn.CompleteTxn? ==> !HasStatus(db.rows, txn.node, RUNNING)
    ensures Agrees(w, t, Commit(w, db, txn))
  {
    match txn
    case ClaimTxn(n) => ClaimAgrees(w, t, db, n);
    case RevertTxn(n) => RevertAgrees(w, t, db, n);
    case RetryTxn(n) => RetryAgrees(w, t, db, n);
    case ResolveTxn(k) => ResolveAgrees(w, t, db, k);
    case CompleteTxn(_, _) =>
    case NoTxn =>
  }

  ghost predicate TxnFits(w: Workflow, t: Verdicts, db: Db, txn: Txn)
    requires TxnOk(w, txn)
  {
    txn.CompleteTxn? ==> OutcomeFits(w, t, db.rows, txn.node, txn.outcome)
  }

  /** Every transaction of a deterministic executor keeps the agreement, as long as its drops fit. */
  lemma CommitAgrees(w: Workflow, exec: Executor, t: Verdicts, db: Db, txn: Txn)
    requires RowsInv(w, db.rows) && IsEvaluation(w, exec, t) && Agrees(w, t, db)
    requires TxnOk(w, txn) && TxnObeys(w, exec, db, txn) && TxnFits(w, t, db, txn)
    ensures Agrees(w, t, Commit(w, db, txn))
  {
    if txn.CompleteTxn? && HasStatus(db.rows, txn.node, RUNNING) {
      OutcomeAgrees(w, exec, t, db, txn.node);
    } else {
      OtherTxnAgrees(w, t, db, txn);
    }
  }

  lemma StartedAgrees(w: Workflow, exec: Executor, t: Verdicts)
    requires IsEvaluation(w, exec, t)
    ensures Agrees(w, t, Started(w))
  {
  }

  /** A worker hands its executor the parents' final outputs, so its completion obeys. */
  lemma StepObeys(w: Workflow, exec: Executor, s: System, step: Step)
    requires TasksOk(w, s) && Enabled(w, s, step) && Obeys(exec, s, step)
    ensures TxnObeys(w, exec, s.db, TxnOf(w, s, step))
  {
    if step.CompleteStep? {
      assert TaskOk(w, s, s.tasks[step.task]);
    }
  }

  // ----- quiescent states -----

  ghost predicate AsEvaluated(t: Verdicts, rows: map<NodeId, NodeRow>, n: NodeId) {
    n in rows && n in t && rows[n].status == StatusOf(t[n])
  }

  lemma SettledAsEvaluated(w: Workflow, t: Verdicts, rows: map<NodeId, NodeRow>, n: NodeId)
    requires RowsShape(w, rows) && RowsAgree(t, rows) && IsNode(w, n) && !Active(rows, n)
    ensures n in rows && n in t && (rows[n].status != PENDING ==> AsEvaluated(t, rows, n))
  {
  }

  lemma QuiescentNext(w: Workflow, exec: Executor, t: Verdicts, rows: map<NodeId, NodeRow>, order: seq<NodeId>, k: nat)
    requires RowsInv(w, rows) && Topological(Ids(w.nodes), w.edges, order) && k < |order|
    requires IsEvaluation(w, exec, t) && RowsAgree(t, rows) && BranchesDropped(w, rows) && !Active(rows, order[k])
    requires forall j :: 0 <= j < k ==> AsEvaluated(t, rows, order[j])
    ensures AsEvaluated(t, rows, order[k])
  {
    hide IsEvaluation, BranchesDropped, RowsAgree, Causal, Joined, SkipClosed, Acyclic;
    var n := order[k];
    TopologicalCovers(Ids(w.nodes), w.edges, order, n);
    SettledAsEvaluated(w, t, rows, n);
    if rows[n].status == PENDING {
      forall x | Reaches(w.edges, x, n) ensures AsEvaluated(t, rows, x) {
        var j := AncestorComesFirst(w, order, x, k);
      }
      PendingIsStuck(w, exec, t, rows, n);
    }
  }

  /** When nothing is QUEUED or RUNNING any more, every row is what the evaluation says. */
  lemma {:induction false} QuiescentUpTo(w: Workflow, exec: Executor, t: Verdicts, rows: map<NodeId, NodeRow>,
                                         order: seq<NodeId>, k: nat)
    requires RowsInv(w, rows) && Topological(Ids(w.nodes), w.edges, order) && k <= |order|
    requires IsEvaluation(w, exec, t) && RowsAgree(t, rows) && BranchesDropped(w, rows)
    requires forall n :: !Active(rows, n)
    ensures forall j :: 0 <= j < k ==> AsEvaluated(t, rows, order[j])
    decreases k
  {
    hide RowsInv, IsEvaluation, RowsAgree, BranchesDropped, Topological, AsEvaluated;
    if k > 0 {
      QuiescentUpTo(w, exec, t, rows, order, k - 1);
      QuiescentNext(w, exec, t, rows, order, k - 1);
    }
  }

  lemma PendingIsStuck(w: Workflow, exec: Executor, t: Verdicts, rows: map<NodeId, NodeRow>, n: NodeId)
    requires Joined(w, rows) && SkipClosed(w, rows) && BranchesDropped(w, rows) && RowsAgree(t, rows)
    requires IsEvaluation(w, exec, t) && HasStatus(rows, n, PENDING)
    requires forall x :: Reaches(w.edges, x, n) ==> AsEvaluated(t, rows, x)
    ensures t[n] == Stuck
  {
    DroppedIsSkipped(w, t, rows, n);
    ParentsIsSkipped(w, t, rows, n);
    assert Blocked(w, rows, n);
    var p :| Edge(p, n) in w.edges && !HasStatus(rows, p, SUCCEEDED);
    EdgeReaches(w.edges, p, n);
    assert AsEvaluated(t, rows, p) && !t[p].Done?;
  }

  lemma ParentsIsSkipped(w: Workflow, t: Verdicts, rows: map<NodeId, NodeRow>, n: NodeId)
    requires SkipClosed(w, rows)
    requires forall x :: Reaches(w.edges, x, n) ==> AsEvaluated(t, rows, x)
    ensures SkippedAbove(w, t, n) ==> HasStatus(rows, n, SKIPPED)
  {
    if p :| Edge(p, n) in w.edges && p in t && t[p] == Skipped {
      EdgeReaches(w.edges, p, n);
      assert AsEvaluated(t, rows, p) && HasStatus(rows, Edge(p, n).from, SKIPPED);
    }
  }

  lemma QuiescentIsEvaluation(w: Workflow, exec: Executor, t: Verdicts, rows: map<NodeId, NodeRow>, order: seq<NodeId>)
    requires RowsInv(w, rows) && Topological(Ids(w.nodes), w.edges, order)
    requires IsEvaluation(w, exec, t) && RowsAgree(t, rows) && BranchesDropped(w, rows)
    requires forall n :: !Active(rows, n)
    ensures forall n :: IsNode(w, n) ==>
      n in rows && n in t && rows[n].status == StatusOf(t[n]) && rows[n].output == OutputOf(t[n])
  {
    QuiescentUpTo(w, exec, t, rows, order, |order|);
    forall n | IsNode(w, n)
      ensures n in rows && n in t && rows[n].status == StatusOf(t[n]) && rows[n].output == OutputOf(t[n])
    {
      TopologicalCovers(Ids(w.nodes), w.edges, order, n);
      var k :| 0 <= k < |order| && order[k] == n;
      assert AsEvaluated(t, rows, order[k]) && RowShape(w, n, rows[n]);
    }
  }
}
