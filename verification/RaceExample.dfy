/** Two runs of one workflow, with the same executor, that end differently: a
    condition whose unchosen branch hangs below another root. */
module RaceExample {
  import opened Graph
  import opened Model
  import opened Transactions
  import opened Protocol
  import opened Progress
  import opened Evaluation
  import opened Convergence
  import opened Races
  import DagValidator

  // ----- reachable states -----

  ghost predicate RunTo(w: Workflow, exec: Executor, states: seq<System>, steps: seq<Step>, s: System) {
    ObeyingRun(w, exec, states, steps) && states[|steps|] == s
  }

  /** Some run with this executor ends in `s`. */
  ghost predicate Reachable(w: Workflow, exec: Executor, s: System) {
    exists states, steps :: RunTo(w, exec, states, steps, s)
  }

  lemma ReachableNext(w: Workflow, exec: Executor, s: System, step: Step, s': System)
    requires Reachable(w, exec, s) && StepTo(w, s, step, s') && Obeys(exec, s, step)
    ensures Reachable(w, exec, s')
  {
    var states, steps :| RunTo(w, exec, states, steps, s);
    RunGrows(w, exec, states, steps, step, s');
    assert RunTo(w, exec, states + [s'], steps + [step], s');
  }

  lemma RunGrows(w: Workflow, exec: Executor, states: seq<System>, steps: seq<Step>, step: Step, s': System)
    requires ObeyingRun(w, exec, states, steps)
    requires StepTo(w, states[|steps|], step, s') && Obeys(exec, states[|steps|], step)
    ensures ObeyingRun(w, exec, states + [s'], steps + [step])
  {
    hide StepTo, Obeys, Init, ValidWorkflow;
    var longer, labels := states + [s'], steps + [step];
    forall i, j | 0 <= i < j < |longer| && j == i + 1 ensures StepTo(w, longer[i], labels[i], longer[j]) {
      if j < |states| { assert StepTo(w, states[i], steps[i], states[j]); }
    }
    forall i | 0 <= i < |labels| ensures Obeys(exec, longer[i], labels[i]) {
      if i < |steps| { assert Obeys(exec, states[i], steps[i]); }
    }
  }

  /** A task that executes `n` successfully completes it; the other tasks and the stream stay as they are. */
  lemma CompleteReachable(w: Workflow, exec: Executor, s: System, t: nat, n: NodeId,
                          output: Payload) returns (s': System)
    requires Reachable(w, exec, s) && StandsFor(s, t, n) && IsNode(w, n) && HasStatus(s.db.rows, n, RUNNING)
    requires s.tasks[t].Executing? && exec(n, s.tasks[t].upstream) == Success(output)
    ensures Reachable(w, exec, s') && s'.db.rows == RowsAfterSuccess(w, s.db.rows, n, output)
    ensures s'.stream == s.stream && |s'.tasks| == |s.tasks|
    ensures forall u :: 0 <= u < |s.tasks| && u != t ==> s'.tasks[u] == s.tasks[u]
  {
    hide Reachable;
    var owed := EnumerateJobs(OwedAfter(w, s.db, n, Success(output)));
    var step := CompleteStep(t, Success(output), owed);
    s' := System(Succeed(w, s.db, n, output), s.stream, s.tasks[t := Finishing(Some(s.tasks[t].msg), owed)]);
    ReachableNext(w, exec, s, step, s');
  }

  // ----- both roots of a workflow with two roots executing -----

  ghost predicate TwoRoots(w: Workflow, a: NodeId, b: NodeId) {
    && ValidWorkflow(w) && a != b && IsRoot(w, a) && IsRoot(w, b)
    && forall n :: IsRoot(w, n) ==> n == a || n == b
  }

  ghost function Entries(a: NodeId, da: Protocol.Delivery, b: NodeId, db: Protocol.Delivery): seq<Message> {
    [Message(Job(a, 1), da), Message(Job(b, 1), db)]
  }

  /** From the start until both roots are claimed: publish twice, deliver twice, claim twice. */
  ghost function BothClaimed(w: Workflow, a: NodeId, b: NodeId): (states: seq<System>)
    ensures |states| == 7
  {
    var db, done := Started(w), Finishing(None, []);
    var held := Entries(a, Pending(1), b, Pending(2));
    [System(db, [], [Finishing(None, [Job(a, 1), Job(b, 1)])]),
     System(db, [Message(Job(a, 1), Undelivered)], [Finishing(None, [Job(b, 1)])]),
     System(db, Entries(a, Undelivered, b, Undelivered), [done]),
     System(db, Entries(a, Pending(1), b, Undelivered), [done, Claiming(0)]),
     System(db, held, [done, Claiming(0), Claiming(1)]),
     System(Claim(db, a), held, [done, Reading(0), Claiming(1)]),
     System(Claim(Claim(db, a), b), held, [done, Reading(0), Reading(1)])]
  }

  lemma TwoRootsInit(w: Workflow, a: NodeId, b: NodeId)
    requires TwoRoots(w, a, b)
    ensures Init(w, BothClaimed(w, a, b)[0])
    ensures HasStatus(Started(w).rows, a, QUEUED) && HasStatus(Started(w).rows, b, QUEUED)
  {
    TwoRootJobs(w, a, b);
    hide RootJobs, Acyclic;
    assert Lists([Job(a, 1), Job(b, 1)], RootJobs(w));
  }

  lemma TwoRootJobs(w: Workflow, a: NodeId, b: NodeId)
    requires TwoRoots(w, a, b)
    ensures RootJobs(w) == {Job(a, 1), Job(b, 1)}
  {
  }

  lemma BothPublished(w: Workflow, a: NodeId, b: NodeId)
    ensures
      var states := BothClaimed(w, a, b);
      StepTo(w, states[0], PublishStep(0), states[1]) && StepTo(w, states[1], PublishStep(0), states[2])
  {
    assert [Job(a, 1), Job(b, 1)][1..] == [Job(b, 1)] && [Job(b, 1)][1..] == [];
    var states := BothClaimed(w, a, b);
    assert states[1].stream == states[0].stream + [Message(Job(a, 1), Undelivered)];
    assert states[2].stream == states[1].stream + [Message(Job(b, 1), Undelivered)];
  }

  lemma BothDelivered(w: Workflow, a: NodeId, b: NodeId)
    ensures
      var states := BothClaimed(w, a, b);
      StepTo(w, states[2], Deliver(0), states[3]) && StepTo(w, states[3], Deliver(1), states[4])
  {
    var states := BothClaimed(w, a, b);
    assert states[3].tasks == states[2].tasks + [Claiming(0)];
    assert states[4].tasks == states[3].tasks + [Claiming(1)];
  }

  lemma BothAreClaimed(w: Workflow, a: NodeId, b: NodeId)
    requires a != b && HasStatus(Started(w).rows, a, QUEUED) && HasStatus(Started(w).rows, b, QUEUED)
    ensures
      var states := BothClaimed(w, a, b);
      StepTo(w, states[4], ClaimStep(1), states[5]) && StepTo(w, states[5], ClaimStep(2), states[6])
  {
    var states := BothClaimed(w, a, b);
    assert states[5].tasks == states[4].tasks[1 := Reading(0)];
    assert states[6].tasks == states[5].tasks[2 := Reading(1)];
  }

  lemma StartReachable(w: Workflow, exec: Executor, s: System)
    requires ValidWorkflow(w) && w.nodes != [] && Init(w, s)
    ensures Reachable(w, exec, s)
  {
    assert RunTo(w, exec, [s], [], s);
  }

  /** In every workflow with exactly two roots some run ends with both of them claimed. */
  lemma ClaimedReachable(w: Workflow, exec: Executor, a: NodeId, b: NodeId)
    requires TwoRoots(w, a, b)
    ensures Reachable(w, exec, BothClaimed(w, a, b)[6])
  {
    var states := BothClaimed(w, a, b);
    assert Reachable(w, exec, states[0]) by { TwoRootsInit(w, a, b); StartReachable(w, exec, states[0]); }
    TwoRootsInit(w, a, b);
    hide Init, StepTo, BothClaimed, Reachable, TwoRoots;
    BothPublished(w, a, b);
    BothDelivered(w, a, b);
    BothAreClaimed(w, a, b);
    ReachableNext(w, exec, states[0], PublishStep(0), states[1]);
    ReachableNext(w, exec, states[1], PublishStep(0), states[2]);
    ReachableNext(w, exec, states[2], Deliver(0), states[3]);
    ReachableNext(w, exec, states[3], Deliver(1), states[4]);
    ReachableNext(w, exec, states[4], ClaimStep(1), states[5]);
    ReachableNext(w, exec, states[5], ClaimStep(2), states[6]);
  }

  /** Both roots are RUNNING, and their tasks have read their inputs. */
  ghost predicate BothExecuting(w: Workflow, s: System, t: nat, a: NodeId, u: nat, b: NodeId) {
    && t != u && BothRunning(w, s.db.rows, a, b) && StandsFor(s, t, a) && StandsFor(s, u, b)
    && s.tasks[t].Executing? && s.tasks[t].upstream == UpstreamOf(w, s.db.rows, a)
    && s.tasks[u].Executing? && s.tasks[u].upstream == UpstreamOf(w, s.db.rows, b)
  }

  ghost predicate BothReading(w: Workflow, s: System, t: nat, a: NodeId, u: nat, b: NodeId) {
    && t != u && BothRunning(w, s.db.rows, a, b) && StandsFor(s, t, a) && StandsFor(s, u, b)
    && s.tasks[t].Reading? && s.tasks[u].Reading?
  }

  lemma RootsRunning(w: Workflow, a: NodeId, b: NodeId)
    requires TwoRoots(w, a, b)
    ensures
      var rows := Claim(Claim(Started(w), a), b).rows;
      && BothRunning(w, rows, a, b)
      && forall n :: IsNode(w, n) && !IsRoot(w, n) ==> HasStatus(rows, n, PENDING)
  {
  }

  lemma ClaimedIsReading(w: Workflow, a: NodeId, b: NodeId)
    requires TwoRoots(w, a, b)
    ensures BothReading(w, BothClaimed(w, a, b)[6], 1, a, 2, b)
    ensures BothClaimed(w, a, b)[6].db == Claim(Claim(Started(w), a), b)
  {
    hide TwoRoots, Started, Claim;
    RootsRunning(w, a, b);
  }

  lemma ReadReachable(w: Workflow, exec: Executor, s: System, t: nat, n: NodeId) returns (s': System)
    requires Reachable(w, exec, s) && StandsFor(s, t, n) && s.tasks[t].Reading?
    ensures Reachable(w, exec, s') && s'.db == s.db && s'.stream == s.stream && StandsFor(s', t, n)
    ensures s'.tasks == s.tasks[t := Executing(s.tasks[t].msg, UpstreamOf(w, s.db.rows, n))]
  {
    hide Reachable;
    s' := System(s.db, s.stream, s.tasks[t := Executing(s.tasks[t].msg, UpstreamOf(w, s.db.rows, n))]);
    ReachableNext(w, exec, s, ReadStep(t), s');
  }

  /** Two more steps read the inputs of both. */
  lemma ExecutingReachable(w: Workflow, exec: Executor, a: NodeId, b: NodeId) returns (s: System)
    requires TwoRoots(w, a, b)
    ensures Reachable(w, exec, s) && s.db == Claim(Claim(Started(w), a), b)
    ensures BothExecuting(w, s, 1, a, 2, b)
  {
    hide Reachable, TwoRoots, BothClaimed, Started;
    ClaimedReachable(w, exec, a, b);
    ClaimedIsReading(w, a, b);
    var s1 := ReadReachable(w, exec, BothClaimed(w, a, b)[6], 1, a);
    s := ReadReachable(w, exec, s1, 2, b);
  }

  /** From there the two may complete one after the other. */
  lemma CompleteBoth(w: Workflow, exec: Executor, s: System, t: nat, a: NodeId, oa: Payload, u: nat, b: NodeId,
                     ob: Payload) returns (s': System)
    requires Reachable(w, exec, s) && BothExecuting(w, s, t, a, u, b)
    requires exec(a, s.tasks[t].upstream) == Success(oa) && exec(b, s.tasks[u].upstream) == Success(ob)
    ensures Reachable(w, exec, s') && s'.db.rows == Both(w, s.db.rows, a, oa, b, ob)
  {
    hide Reachable, RowsAfterSuccess;
    SecondEffect(w, s.db.rows, a, oa, b, ob, b);
    var s1 := CompleteReachable(w, exec, s, t, a, oa);
    s' := CompleteReachable(w, exec, s1, u, b, ob);
  }

  /** Any clash between the two roots is a race that runs with the same executor decide differently. */
  lemma RunsDisagree(w: Workflow, exec: Executor, a: NodeId, oa: Payload, b: NodeId, ob: Payload, x: NodeId)
    returns (s: System, s': System)
    requires TwoRoots(w, a, b)
    requires
      var rows := Claim(Claim(Started(w), a), b).rows;
      && BothRunning(w, rows, a, b) && Clash(w, rows, a, oa, b, ob, x)
      && exec(a, UpstreamOf(w, rows, a)) == Success(oa) && exec(b, UpstreamOf(w, rows, b)) == Success(ob)
    ensures Reachable(w, exec, s) && Reachable(w, exec, s')
    ensures HasStatus(s.db.rows, x, SKIPPED) && HasStatus(s'.db.rows, x, QUEUED)
  {
    hide Reachable, TwoRoots, Both, Clash;
    var front := ExecutingReachable(w, exec, a, b);
    FirstComerDecides(w, front.db.rows, a, oa, b, ob, x);
    s := CompleteBoth(w, exec, front, 1, a, oa, 2, b, ob);
    s' := CompleteBoth(w, exec, front, 2, b, ob, 1, a, oa);
  }

  // ----- a concrete workflow -----

  /** The registered executor types. */
  const KINDS: set<string> := {"http", "delay", "condition", "transform", "webhook", "notification"}

  predicate StartsWith(s: string, prefix: string) {
    prefix <= s
  }

  predicate Contains(s: string, word: string) {
    exists i: nat :: i <= |s| && word <= s[i..]
  }

  /** The words that the condition executor refuses in an expression. */
  const UNSAFE: seq<string> := ["import", "exec", "eval", "os", "sys", "open"]

  /** The configuration checks of the http and the condition executor. */
  predicate Configured(d: NodeDef) {
    match d.kind
    case "http" =>
      "url" in d.config && (StartsWith(d.config["url"], "http://") || StartsWith(d.config["url"], "https://"))
    case "condition" =>
      && "expression" in d.config && "true_path" in d.config && "false_path" in d.config
      && forall k :: 0 <= k < |UNSAFE| ==> !Contains(d.config["expression"], UNSAFE[k])
    case _ => true
  }

  /** A condition with its false branch below another root, configured as the executors demand. */
  function RacyWorkflow(): Workflow {
    var config := map["expression" := "input.x == 1", "true_path" := "y", "false_path" := "x"];
    var page := map["url" := "https://a.b/"];
    Workflow([NodeDef("c", "condition", config, None), NodeDef("p", "http", page, None),
              NodeDef("y", "http", page, None), NodeDef("x", "http", page, None)],
             [Edge("c", "y"), Edge("p", "x")], None)
  }

  /** The condition finds its expression true. */
  function Chosen(): Payload {
    map["result" := "true", "next_node" := "y"]
  }

  /** Every request succeeds. */
  function Fetched(): Payload {
    map["status_code" := "200", "body" := "ok"]
  }

  ghost function RacyExecutor(): Executor {
    (n: NodeId, upstream: Upstream) => Success(if n == "c" then Chosen() else Fetched())
  }

  lemma ContainsLetters(s: string, word: string, k: nat)
    requires k < |word|
    ensures Contains(s, word) ==> word[k] in s
  {
    if i: nat :| i <= |s| && word <= s[i..] {
      assert s[i..][k] == word[k];
    }
  }

  lemma ExpressionIsSafe(k: nat)
    requires k < |UNSAFE|
    ensures !Contains("input.x == 1", UNSAFE[k])
  {
    hide Contains;
    var s := "input.x == 1";
    match k
    case 0 => ContainsLetters(s, "import", 1);
    case 1 => ContainsLetters(s, "exec", 0);
    case 2 => ContainsLetters(s, "eval", 0);
    case 3 => ContainsLetters(s, "os", 0);
    case 4 => ContainsLetters(s, "sys", 0);
    case _ => ContainsLetters(s, "open", 0);
  }

  lemma RacyIds()
    ensures Ids(RacyWorkflow().nodes) == ["c", "p", "y", "x"]
    ensures Def(RacyWorkflow().nodes, "c") == RacyWorkflow().nodes[0]
    ensures Def(RacyWorkflow().nodes, "p") == RacyWorkflow().nodes[1]
  {
  }

  lemma RacyIsAcyclic()
    ensures ValidWorkflow(RacyWorkflow())
  {
    var w := RacyWorkflow();
    RacyOrder();
    TopologicalImpliesAcyclic(Ids(w.nodes), w.edges, Ids(w.nodes));
    hide Acyclic, Topological, RacyWorkflow;
  }

  lemma TwoEdgesForward(c: NodeId, p: NodeId, y: NodeId, x: NodeId)
    requires Distinct([c, p, y, x])
    ensures Topological([c, p, y, x], [Edge(c, y), Edge(p, x)], [c, p, y, x])
    ensures EdgesWithin([c, p, y, x], [Edge(c, y), Edge(p, x)])
  {
    var ids := [c, p, y, x];
    assert forall i, j :: 0 <= i < |ids| && 0 <= j < |ids| && ids[i] == ids[j] ==> i == j;
    assert ids[0] == c && ids[1] == p && ids[2] == y && ids[3] == x;
  }

  lemma RacyOrder()
    ensures Topological(Ids(RacyWorkflow().nodes), RacyWorkflow().edges, Ids(RacyWorkflow().nodes))
    ensures EdgesWithin(Ids(RacyWorkflow().nodes), RacyWorkflow().edges)
  {
    RacyIds();
    assert RacyWorkflow().edges == [Edge("c", "y"), Edge("p", "x")];
    hide RacyWorkflow, Ids, Topological, EdgesWithin;
    TwoEdgesForward("c", "p", "y", "x");
  }

  lemma RacyIsConfigured(d: NodeDef)
    requires d in RacyWorkflow().nodes
    ensures d.kind in KINDS && Configured(d)
  {
    forall k | 0 <= k < |UNSAFE| ensures !Contains("input.x == 1", UNSAFE[k]) { ExpressionIsSafe(k); }
    hide Contains;
  }

  /** The workflow passes all checks of the validator, the executors' configuration checks included. */
  lemma RacyIsAccepted()
    ensures ValidWorkflow(RacyWorkflow()) && forall d :: d in RacyWorkflow().nodes ==> d.kind in KINDS && Configured(d)
  {
    forall d | d in RacyWorkflow().nodes ensures d.kind in KINDS && Configured(d) { RacyIsConfigured(d); }
    RacyIsAcyclic();
  }

  /** The validator accepts it. */
  method ValidateRacyWorkflow() returns (r: Result<DagValidator.Validation, DagValidator.ValidationError>)
    ensures r.Ok?
  {
    RacyIsAccepted();
    r := DagValidator.ValidateWorkflow(RacyWorkflow(), KINDS, Configured);
  }

  lemma RacyIsUnsettled()
    ensures !BranchesSettled(RacyWorkflow())
  {
    var w := RacyWorkflow();
    RacyIds();
    if Reaches(w.edges, "c", "x") { ClosedUnderReaches(w.edges, {"c", "y"}, "c", "x"); }
    if Reaches(w.edges, "p", "c") { ClosedUnderReaches(w.edges, {"p", "x"}, "p", "c"); }
    assert Edge("p", "x") in w.edges && Edge("c", "y") in w.edges;
    assert !BranchSettled(w, "c", "x");
  }

  lemma RacyRoots()
    ensures TwoRoots(RacyWorkflow(), "c", "p") && !IsRoot(RacyWorkflow(), "x")
  {
    var w := RacyWorkflow();
    RacyIds();
    RacyIsAcyclic();
    hide Acyclic;
    assert Edge("c", "y") in w.edges && Edge("p", "x") in w.edges;
  }

  lemma RacyParent(q: NodeId)
    ensures Edge(q, "x") in RacyWorkflow().edges <==> q == "p"
  {
    assert Edge("p", "x") in RacyWorkflow().edges;
  }

  lemma RacySeed()
    ensures IsNode(RacyWorkflow(), "c") && "x" in SkipSeeds(RacyWorkflow(), "c", Chosen())
  {
    RacyIds();
    assert Edge("c", "y") in RacyWorkflow().edges;
  }

  /** The http node drops nothing. */
  lemma RacyDropsNothing(rows: map<NodeId, NodeRow>)
    requires HasStatus(rows, "p", RUNNING)
    ensures IsNode(RacyWorkflow(), "p") && SkippedBy(RacyWorkflow(), rows, "p", Fetched()) == {}
  {
    RacyIds();
  }

  lemma RacyRows()
    ensures
      var rows := Claim(Claim(Started(RacyWorkflow()), "c"), "p").rows;
      BothRunning(RacyWorkflow(), rows, "c", "p") && HasStatus(rows, "x", PENDING)
  {
    RacyRoots();
    RacyIds();
    hide Acyclic, RacyWorkflow;
    RootsRunning(RacyWorkflow(), "c", "p");
  }

  /** `x` waits for `p` alone, and is a branch that `c` does not choose. */
  lemma WaitingBranchClashes(w: Workflow, rows: map<NodeId, NodeRow>, c: NodeId, oc: Payload, p: NodeId, op: Payload,
                             x: NodeId)
    requires BothRunning(w, rows, c, p) && x in SkipSeeds(w, c, oc) && HasStatus(rows, x, PENDING)
    requires SkippedBy(w, rows, p, op) == {} && forall q :: Edge(q, x) in w.edges <==> q == p
    ensures Clash(w, rows, c, oc, p, op, x)
  {
  }

  lemma RacyClash()
    ensures
      var w := RacyWorkflow();
      var rows := Claim(Claim(Started(w), "c"), "p").rows;
      && BothRunning(w, rows, "c", "p")
      && Clash(w, rows, "c", Chosen(), "p", Fetched(), "x")
  {
    hide RacyWorkflow, Started, SkipSeeds, SkippedBy;
    RacyRows();
    RacySeed();
    var rows := Claim(Claim(Started(RacyWorkflow()), "c"), "p").rows;
    RacyDropsNothing(rows);
    forall q ensures Edge(q, "x") in RacyWorkflow().edges <==> q == "p" { RacyParent(q); }
    WaitingBranchClashes(RacyWorkflow(), rows, "c", Chosen(), "p", Fetched(), "x");
  }

  /** Runs of the concrete workflow, with one and the same executor, reach a state in which `x` is SKIPPED and
      one in which `x` is QUEUED and will be executed. */
  lemma RacyRunsDisagree() returns (s: System, s': System)
    ensures Reachable(RacyWorkflow(), RacyExecutor(), s) && Reachable(RacyWorkflow(), RacyExecutor(), s')
    ensures HasStatus(s.db.rows, "x", SKIPPED) && HasStatus(s'.db.rows, "x", QUEUED)
  {
    hide Reachable, TwoRoots, Clash, BothRunning, Started, RacyWorkflow;
    RacyRoots();
    RacyClash();
    s, s' := RunsDisagree(RacyWorkflow(), RacyExecutor(), "c", Chosen(), "p", Fetched(), "x");
  }
}
