# EventFlow: a verified model of the workflow engine

EventFlow runs a workflow, a DAG of executor nodes, with any number of workers
that share database rows and a Redis consumer group.  This project models that
engine in Dafny and proves what its runs guarantee, under every interleaving of
workers, recovery loops, crashes, duplicate deliveries, manual retries and
executor outcomes.  It also models the three smaller algorithms beside the
engine: the editor's cycle check, refresh-token rotation, and the in-memory rate
limiter.

`dafny verify dfyconfig.toml` checks everything.

## How the model is built

- `Graph`, `Model`: edges, paths, topological orders; workflow definitions, rows,
  the dead-letter ledger, jobs.
- `DagValidator`, `FlowEditor`: Kahn's algorithm and the editor's depth-first
  search, as loops and recursion over mutable state, both proved against the same
  definition of acyclicity.
- `Transactions`: what each database transaction commits, stated declaratively.
  The skip cascade is a closure over paths through PENDING nodes, the AND-join a
  condition on all parents.
- `Engine`: the database code in the source's own form.  A class `Store` holds the
  rows; its methods are the guarded transitions, the `while queue` cascade, the
  join loop, completion, claim, recovery, retry and start, each proved to commit
  exactly what `Transactions` says, and each with a second contract that says of every
  row, ledger entry and published job what becomes of it without those functions.
- `Protocol`: the distributed state machine.  A `System` is the committed state,
  the stream with its consumer-group bookkeeping, and a list of tasks.  A task is
  one call of `process_job`, of the recovery loop or of the API, with its local
  state: claiming, reading inputs, executing, still owing publishes, about to
  acknowledge, stopped.  Several tasks may work on the same node at once, and any
  of them may die before any step.  A `Run` is a finite sequence of steps from the
  commit of `start_execution`.
- `Invariants`, `Histories`, `Safety`, `Publishing`, `Delivery`, `Progress`: what
  every transaction and every step keeps.
- `Evaluation`: the reference semantics, one sequential pass over the DAG without
  workers, messages or retries, and its characterisation as the only solution of
  the recursive equations.
- `Theorems`, `Work`, `Convergence`, `Confluence`, `Termination`, `Uninterrupted`: the
  results over whole runs.
- `Repair`: what recovery and users can mend.
- `LostJobs`, `Races`, `RaceExample`: where the engine's promises end, with exact
  conditions and concrete runs.
- `RefreshTokens`, `RateLimiter`.

### Main results

1. **Every concurrent run refines the sequential evaluation**
   (`Convergence.RunRefinesPass`, `RunsConverge`, `EveryRunCanFinish`): with
   executors that are functions of their inputs, and if the evaluation is `Harmless`
   (see below), every terminal row of every state has the status and output the
   sequential pass gives it; runs without active nodes agree; and every careful run can
   still be driven to that result.  `Confluence.AllRunsAgreeIffHarmless` proves the
   assumption necessary.
   Scheduling cannot avoid the result: a careful run in which no process can take a
   step is the evaluation (`Termination.FinishedRunsRealize`).  The ordinary steps of
   any run are bounded by the configured attempts, the reclaims and the manual retries
   (`Termination.RunsAreBounded`); a careful run in which no process dies never
   reclaims, so its whole length is bounded
   (`Uninterrupted.UninterruptedRunsAreBounded`).
2. **No job is lost in careful runs** (`Theorems.NoJobLost`), and
   `LostJobs.LostIffStuck` says of any state exactly when a job is lost.  All workers that owe no
   publishes may die at once (`Repair.AllWorkersMayDie`), and a manual retry buys a dead node
   exactly one attempt (`Repair.RetryIsOneMoreAttempt`).
3. **No deadlock, execution status as a function of history, attempt conservation,
   the dead-letter ledger, causal order, bounded work, the publish log, absorbing
   states** (`Theorems`, `Work`).
4. **Kahn and the editor's search** accept exactly the acyclic graphs.
5. **Token families** keep at most one valid token, and reuse kills a family for good.
6. **The rate limiter's pruned list** counts the full history of the last window.

### What turned out not to hold, and exactly when it does

- *At-least-once delivery.*  README.md:165 of EventFlow says that messages are
  never lost during worker failure.  The code publishes after it commits, so a
  process that dies in between leaves the node QUEUED for good
  (`LostJobs.CrashLosesRoot`, for every workflow).  A recovery loop that claims the
  entry of a slow worker can lose a job as well, although every publish loop ran
  to its end: `LostJobs.StealLosesJob`, and `SoleWorkerIsReached` shows that its
  starting state occurs.  `LostJobs.LostIffStuck` gives the exact condition: a
  waiting node can be brought to its next outcome if and only if it has an entry that
  is not acknowledged, or a live publisher that owes it, or a live task at the right
  point.  Careful runs (no death inside a publish loop, no claim from a live task)
  always satisfy it.
- *One chosen branch.*  A condition skips its unchosen branch wherever that branch
  lies.  If the branch does not lie below the condition, the condition may come too
  late: the branch was released by its own parents first.  Three exact conditions say
  when this matters.  For two completions in any state, `Races.OrderMattersIffClash`:
  their order matters if and only if one would skip, as a branch not chosen, a PENDING
  node that the other would release.  For one run, `Convergence.RunAgreesIffDropsFit`:
  it agrees with the sequential evaluation in all its states if and only if no condition
  ever drops, outside its descendants, a PENDING node that the evaluation does not skip.
  For a workflow and an executor, before any run, `Confluence.AllRunsAgreeIffHarmless`:
  all runs agree with the evaluation if and only if it is `Harmless`, that is, every
  branch which a completed condition drops, which does not lie below that condition and
  which has a parent not above it, is skipped in the evaluation for another reason.
  `BranchesSettled`, which looks at the workflow alone, implies `Harmless`: each branch
  target is no node, or lies below the condition, or has all its parents above it, or the
  condition has no children.  Branch targets that are children of their condition are the
  simplest case.  `RaceExample.RacyRunsDisagree` shows a workflow that passes all checks
  and two runs of it, with the same executor, that end differently.
- *Finishing.*  The validator accepts a workflow without nodes, and its execution
  stays RUNNING forever (`Theorems.EmptyWorkflowNeverFinishes`).  The run theorems
  therefore assume at least one node.

### Modelling decisions

- One database transaction is one atomic step.  Completion is serialised by the row
  lock in the source; claim, recovery revert, manual retry and token refresh are plain
  read-then-write transactions, so their atomicity is an assumption of the model.
- `execution.status` in the completion is taken as read under the lock.
- One execution is modelled; rows are keyed by the node id of the definition.  Executions
  share nothing but the stream, and recovery and delivery are arbitrary in the model.
- Clock, idle times and poll batches are abstracted: any pending entry may be claimed by
  recovery at any time.
- A raised exception ends a task like a crash: the entry stays pending.  This covers a failed
  publish and the rejected transition of a worker that finds its node RUNNING.
- JSON payloads are maps of strings; a missing key reads as the empty string, which the engine
  treats like a missing branch.  Executor results are arbitrary in all theorems but those of
  `Convergence`, where they are any function of node and upstream outputs (configuration and
  workflow input are fixed in an execution).
- The `history` field records one event per committed change; the source stages such events
  for its log, the model uses them to state properties of runs.
- Executor types and configuration checks are parameters of the validator.
- Refresh-token hashes and family ids are fresh; clock readings of refresh calls are arbitrary.
- The rate limiter's window is positive and its clock does not run backwards; time is `real`.

## Model

| member | source | states |
|---|---|---|
| `Confluence.AllRunsAgreeIffHarmless` | backend/app/worker/runtime.py:273-316 | all runs with an executor agree with its evaluation in all their states if and only if the evaluation is harmless: whatever a condition drops astray is skipped for another reason |
| `Confluence.AgreementIsHarmless` | backend/app/worker/runtime.py:273-297 | necessity: driving only the ancestors of a condition and then the condition itself makes the stray drop happen |
| `Evaluation.SettledIsHarmless` | backend/app/worker/runtime.py:273-280 | settled branches, a condition on the workflow alone, make every evaluation harmless |
| `Convergence.RunRefinesPass` | backend/app/worker/runtime.py:112-168 | with executors that are functions of their inputs and a harmless evaluation, in every state of every run each SUCCEEDED, SKIPPED or DEAD_LETTERED node has the status and output of the sequential pass over any topological order |
| `Convergence.RunAgrees` | backend/app/worker/runtime.py:257-318 | with a harmless evaluation, rows, dropped branches and ledger agree with it in every state of every run whose executors are functions of their inputs |
| `Convergence.RunAgreesIffDropsFit` | backend/app/worker/runtime.py:273-297 | a run agrees with the evaluation in all its states if and only if no condition ever drops, outside its descendants, a PENDING node that the evaluation does not skip |
| `Convergence.RunsConverge` | backend/app/worker/runtime.py:118-186 | with a harmless evaluation, two runs without QUEUED and RUNNING nodes, however scheduled, end with the same statuses, outputs and execution status |
| `Convergence.EveryRunCanFinish` | backend/app/worker/recovery.py:140-175 | with a harmless evaluation, from every state of a careful run careful steps lead to a state without QUEUED and RUNNING nodes whose rows and status are the evaluation |
| `Termination.RunsAreBounded` | backend/app/worker/runtime.py:321-381 | any run has at most six ordinary steps (of workers and publishers) per configured attempt and one more, plus five per reclaimed entry and seven per manual retry |
| `Termination.StepWeight` | backend/app/worker/runtime.py:49-200 | every ordinary step takes weight from the state; only reclaiming and retrying add some |
| `Uninterrupted.NothingIsReclaimed` | backend/app/worker/recovery.py:96-137 | in a careful run in which no process dies, each QUEUED node is carried by exactly one job, each RUNNING node by exactly one worker, and nothing is ever reclaimed |
| `Uninterrupted.UninterruptedRunsAreBounded` | backend/app/worker/runtime.py:321-381 | such a run has at most six steps per configured attempt (60 per node) and one more, eight per manual retry and one per manual resolution |
| `Termination.FinishedRunsRealize` | backend/app/worker/recovery.py:140-175 | with a harmless evaluation, a careful run in which no process can take a step and no abandoned entry is left has no QUEUED or RUNNING node, and its rows and status are the evaluation |
| `Convergence.QuiescentStatus` | backend/app/worker/runtime.py:170-184 | at rest the execution is FAILED if some node is exhausted in the evaluation, else SUCCEEDED |
| `Evaluation.PassIsEvaluation` | backend/app/worker/runtime.py:257-318 | the sequential pass solves the recursive equations on every workflow the validator accepts |
| `Evaluation.EvaluationUnique` | backend/app/worker/runtime.py:257-318 | the recursive equations have no other solution |
| `Evaluation.BranchesCanBeDropped` | backend/app/worker/runtime.py:273-280 | the branches that `BranchesSettled` looks at are exactly those that some output of the condition leaves unchosen |
| `Evaluation.SkippedIff` | backend/app/worker/runtime.py:273-297 | a node evaluates to skipped iff a parent does, or a completed condition above it has it as a configured path that its output does not choose |
| `Evaluation.VerdictOfStarted` | backend/app/worker/runtime.py:83-110 | a node that was ever queued evaluates to what its executor makes of its parents' committed outputs |
| `Evaluation.SuccessAgrees` | backend/app/worker/runtime.py:273-316 | after a success the rows agree with the evaluation if and only if every PENDING branch dropped outside the descendants of the condition is one the evaluation skips |
| `Evaluation.CascadeIsSkipped` | backend/app/worker/runtime.py:273-297 | if every branch dropped astray is one the evaluation skips, everything the cascade skips is skipped by the evaluation |
| `Evaluation.CommitAgrees` | backend/app/worker/runtime.py:118-186 | every transaction with a deterministic executor keeps the agreement, as long as its drops fit the evaluation |
| `Evaluation.QuiescentIsEvaluation` | backend/app/worker/runtime.py:299-316 | when nothing is QUEUED or RUNNING, all rows are exactly the evaluation, stuck nodes PENDING |
| `Races.OrderIrrelevant` | backend/app/worker/runtime.py:257-318 | with settled branches two completions commute on all rows, in every state that satisfies the invariant |
| `Races.OrderMattersIffClash` | backend/app/worker/runtime.py:273-316 | in any state the order of two completions matters if and only if one would skip, as a branch not chosen, a PENDING node that the other would release |
| `Races.FirstComerDecides` | backend/app/worker/runtime.py:273-316 | on such a node the first of the two decides between SKIPPED and QUEUED, whatever they put out |
| `RaceExample.RunsDisagree` | backend/app/worker/runtime.py:118-186 | in every workflow with two roots that clash, runs with the same executor reach a state with the branch SKIPPED and one with it QUEUED |
| `RaceExample.RacyRunsDisagree` | backend/app/services/executor_registry.py:236-244 | runs of a concrete workflow with one executor, whose condition returns a configured path, end differently |
| `RaceExample.RacyIsAccepted` | backend/app/services/dag_validator.py:16-98 | that workflow passes every check of the validator, the configuration checks of its executors included |
| `RaceExample.RacyIsUnsettled` | backend/app/worker/runtime.py:273-280 | that workflow has an unsettled branch |
| `Theorems.NoJobLost` | backend/app/worker/runtime.py:186-200 | in careful runs every QUEUED or RUNNING node has an entry neither acknowledged nor finished, or is owed by a live publisher |
| `Delivery.StepKeepsJobs` | backend/app/worker/recovery.py:75-93 | every careful step keeps each QUEUED node covered by an unclaimed entry or an owed publish, and each RUNNING node by an unfinished entry |
| `Repair.AllWorkersMayDie` | backend/app/worker/recovery.py:96-175 | in any state of a careful run all processes that owe no publishes may die at once, and still every active node can be driven to its next outcome and the execution to rest |
| `Repair.RetryIsOneMoreAttempt` | backend/app/services/execution_engine.py:238-277 | in every state of a careful run a manual retry of a DEAD_LETTERED node goes through and buys exactly one attempt, which can be driven to success if the executor now succeeds on the parents' outputs, and to DEAD_LETTERED if not |
| `Repair.ResolvedCanBeRetried` | backend/app/services/dlq_service.py:47-58 | resolving any ledger row by hand changes no node and takes no retry away |
| `LostJobs.LostIffStuck` | backend/app/worker/runtime.py:321-381 | in any state that satisfies the invariant, and with any executor, a waiting node can still be brought to its next applied outcome if and only if it is not lost |
| `LostJobs.LostIsForever` | backend/app/worker/recovery.py:140-175 | a lost node keeps its row under every later step |
| `LostJobs.CarefulRunsLoseNothing` | backend/app/worker/recovery.py:164-175 | no state of a careful run has a lost node, so each waiting node can be brought to its next outcome |
| `LostJobs.CrashLosesRoot` | backend/app/services/execution_engine.py:113-125 | a death between the commit and the publish loop of `start_execution` loses every root of every workflow |
| `LostJobs.StealLosesJob` | backend/app/worker/recovery.py:85-92 | claiming the entry of a slow worker, followed by a death of the claimer, loses the job although no publish was lost |
| `LostJobs.SoleWorkerIsReached` | backend/app/worker/runtime.py:57-110 | the state from which the theft starts is reached in a run of every one-node workflow |
| `Theorems.NoDeadlock` | backend/app/worker/runtime.py:299-316 | when nothing is QUEUED or RUNNING, every PENDING node has a DEAD_LETTERED ancestor |
| `Theorems.RunningHasWork` | backend/app/worker/runtime.py:170-184 | a RUNNING execution always has a QUEUED or RUNNING node |
| `Theorems.ExecutionStatusIsHistory` | backend/app/worker/runtime.py:170-184 | FAILED iff some node was ever dead-lettered, SUCCEEDED iff none was and all nodes are SUCCEEDED or SKIPPED, RUNNING otherwise |
| `Theorems.EmptyWorkflowNeverFinishes` | backend/app/services/dag_validator.py:72-76 | a workflow without nodes is started and stays RUNNING in every state of every run |
| `Theorems.AbsorbingStates` | backend/app/worker/runtime.py:131-138 | SUCCEEDED and SKIPPED rows never change, a SUCCEEDED execution is frozen, FAILED and RETRYING are never committed |
| `Theorems.LimitsAreConfigured` | backend/app/services/retry_policy.py:6-12 | in every state of every run the attempt limit of a node is its own, else the workflow's, else 3 |
| `Theorems.AttemptConservation` | backend/app/services/state_transition.py:78-84 | applied outcomes plus one if QUEUED or RUNNING equal `attempt`; claims plus one if QUEUED equal `attempt` plus reverts |
| `Theorems.DeadLetterLedger` | backend/app/services/execution_engine.py:245-268 | rows are manual retries plus one if DEAD_LETTERED, the k-th records max_attempts + k, at most one is unresolved and only while DEAD_LETTERED, so a retry succeeds exactly for DEAD_LETTERED nodes |
| `Theorems.CausalOrder` | backend/app/worker/runtime.py:299-316 | whenever a node starts, every ancestor succeeded strictly earlier |
| `Theorems.InputsAreFinal` | backend/app/worker/runtime.py:89-98 | an executor is handed the outputs of exactly its parents, and no later state shows other outputs |
| `Theorems.SkippingIsClosed` | backend/app/worker/runtime.py:290-297 | in every state every child of a SKIPPED node is SKIPPED |
| `Theorems.PublishedAtMostOnce` | backend/app/worker/runtime.py:188-197 | no two stream entries carry the same node and attempt, and each names an attempt that has begun |
| `Theorems.PublishLogIsComplete` | backend/app/queue/publisher.py:55-77 | when no publisher died and none owes a job, the published attempts of each node are exactly 1 to `attempt` |
| `Publishing.StepKeepsIssued` | backend/app/worker/runtime.py:186-200 | published plus owed copies of every job are at most, and without a death in a publish loop exactly, one per attempt begun |
| `Publishing.CompleteDue` | backend/app/worker/runtime.py:299-316 | completion begins exactly the attempts it owes publishes for |
| `Work.BoundedWork` | backend/app/worker/runtime.py:203-254 | executor starts are at most the sum of max_attempts (at most 10 per node) plus reverts plus manual retries, and equal outcomes plus reverts plus nodes RUNNING now |
| `Progress.CompleteSpendsPotential` | backend/app/worker/runtime.py:203-254 | every applied outcome lowers the potential of its node and raises no other |
| `Progress.DriveNode` | backend/app/worker/recovery.py:75-93 | an active node of a state of a careful run can be driven to its next outcome, whoever holds its entry |
| `Progress.CanQuiesce` | backend/app/worker/recovery.py:140-175 | every state of a careful run can be driven to one with no QUEUED and no RUNNING node, for any executor |
| `Invariants.CommitKeepsRows` | backend/app/worker/runtime.py:118-186 | every transaction keeps: one row per node, output iff SUCCEEDED, started nodes have SUCCEEDED parents, PENDING nodes are blocked by a parent, skipping is closed |
| `Invariants.SuccessIsExact` | backend/app/worker/runtime.py:257-318 | the success transaction row by row, in terms of configured paths, edges and statuses only |
| `Invariants.ChosenBranchIsQueued` | backend/app/worker/runtime.py:273-316 | the branch a condition chose is QUEUED if it is a PENDING child, its other parents have succeeded and it is not below a path that was not chosen |
| `Invariants.OnlyConditionsSkip` | backend/app/worker/runtime.py:273-297 | only the success of a condition skips nodes, and each of them is, or lies below, a configured path that was not chosen |
| `Invariants.SuccessKeepsSkipClosed` | backend/app/worker/runtime.py:281-297 | the cascade leaves no unskipped child of a SKIPPED node |
| `Invariants.SuccessKeepsJoined` | backend/app/worker/runtime.py:299-316 | no join is missed: a node still PENDING after a success has a parent that has not succeeded |
| `Invariants.AncestorsSucceeded` | backend/app/worker/runtime.py:303-308 | every ancestor of a node that was ever queued has SUCCEEDED |
| `Histories.CommitKeepsInv` | backend/app/worker/runtime.py:118-254 | every transaction keeps rows, counters, ledger, execution status and causal history consistent |
| `Histories.CommitKeepsStatus` | backend/app/services/state_transition.py:33-50 | the execution status stays the one read off ledger and rows |
| `Histories.CommitKeepsBooks` | backend/app/services/state_transition.py:78-84 | the attempt and ledger balances of every node are kept by every transaction |
| `Histories.AtMostOneUnresolved` | backend/app/services/execution_engine.py:259-263 | the single-row lookup of a manual retry never meets two unresolved rows |
| `Safety.StepKeepsInv` | backend/app/worker/runtime.py:49-200 | every protocol step keeps the invariant, freezes absorbing rows and only extends ledger and history |
| `Safety.RunEvolves` | backend/app/worker/runtime.py:65-71 | between any two states of a run no SUCCEEDED or SKIPPED row changes, no node is un-started, no attempt goes down, and ledger and history only grow |
| `DagValidator.ValidateWorkflow` | backend/app/services/dag_validator.py:16-98 | succeeds iff node ids are distinct, every node has a known type and a configuration its executor accepts, edges refer to nodes and there is no cycle; the order is a topological permutation beginning with exactly the roots; otherwise the first failing check is reported |
| `DagValidator.Kahn` | backend/app/services/dag_validator.py:68-92 | the loop drains to an order that covers all nodes iff the graph is acyclic |
| `DagValidator.CheckNodes` | backend/app/services/dag_validator.py:22-47 | no error iff all nodes are distinct, of known types and accepted by their executors; else the error names the first node that is not and in which of the three it fails, in that order |
| `DagValidator.BuildGraph` | backend/app/services/dag_validator.py:49-66 | adjacency lists and in-degrees of all edges, or the first edge with a missing endpoint |
| `FlowEditor.CreatesCycle` | frontend/src/components/workflows/ReactFlowEditor.tsx:175-201 | returns true iff the source is reachable from the target or equal to it |
| `FlowEditor.CycleSearch.Dfs` | frontend/src/components/workflows/ReactFlowEditor.tsx:185-198 | the search with a shared visited set terminates, finds only real paths, and when it fails has closed all it visited |
| `FlowEditor.OnConnect` | frontend/src/components/workflows/ReactFlowEditor.tsx:203-216 | nodes and old edges stay; the new edge is added at the end, once, unless the source is reachable from the target or it is there already |
| `FlowEditor.OnAddNode` | frontend/src/components/workflows/ReactFlowEditor.tsx:237-267 | nodes and edges stay, the node comes last, and exactly one edge is added, from the selected node or else the last one, if there is any |
| `FlowEditor.RefusedIffCyclic` | frontend/src/components/workflows/ReactFlowEditor.tsx:203-216 | a connection is refused iff adding it would make the graph cyclic |
| `FlowEditor.AnyEditMayFollow` | frontend/src/components/workflows/ReactFlowEditor.tsx:203-267 | every connection of two nodes on the canvas and every addition of a new node continues a session |
| `FlowEditor.SessionKeepsGood` | frontend/src/components/workflows/ReactFlowEditor.tsx:203-267 | every sequence of connections and fresh nodes keeps the canvas acyclic and well-formed |
| `FlowEditor.EditorAgreesWithValidator` | backend/app/services/dag_validator.py:68-92 | whatever is drawn passes the validator's duplicate, edge and cycle checks |
| `Engine.Store.TransitionNode` | backend/app/services/state_transition.py:56-102 | guarded transition: not found, wrong status, or exactly one row changed with the attempt raised on entering QUEUED |
| `Engine.Store.TransitionExecution` | backend/app/services/state_transition.py:19-54 | the execution status changes iff it was the expected one |
| `Engine.Store.CascadeSkips` | backend/app/worker/runtime.py:281-297 | the loop terminates and skips exactly the nodes reachable from the seeds through nodes PENDING on entry |
| `Engine.Store.ReleaseChildren` | backend/app/worker/runtime.py:299-318 | enqueues exactly the PENDING children all of whose parents have succeeded, and lists each once for publishing |
| `Engine.Store.QueueDownstream` | backend/app/worker/runtime.py:257-318 | of every row: a PENDING node reachable through PENDING nodes from a configured path that the output does not choose is SKIPPED, any other PENDING child with succeeded parents only is QUEUED for its next attempt and published once, nothing else changes |
| `Engine.Store.HandleFailure` | backend/app/worker/runtime.py:203-254 | back into the queue while attempts remain, else dead-lettered with a ledger row that records the attempts and a failed execution |
| `Engine.Store.CompleteJob` | backend/app/worker/runtime.py:118-186 | after a success the node holds its output and every other row is SKIPPED, QUEUED or kept as branch choice and join demand; after a failure it is queued again or dead-lettered; the execution status follows from the rows; published is each node that entered the queue, once; nothing happens if the node is no longer RUNNING |
| `Engine.Store.ClaimJob` | backend/app/worker/runtime.py:57-79 | claims a QUEUED node, ignores a missing or terminal one, rejects any other; only a claim changes anything, and only the status of its row |
| `Engine.Store.RecoverJob` | backend/app/worker/recovery.py:56-93 | puts a RUNNING node back to QUEUED without a new attempt; proceeds unless missing or terminal |
| `Engine.Store.RetryNode` | backend/app/services/execution_engine.py:238-277 | requeues a DEAD_LETTERED node on its next attempt and leaves no row of it open, all other rows as they were; not found, wrong status and two open rows are told apart and change nothing |
| `Engine.Store.ResolveDeadLetter` | backend/app/services/dlq_service.py:47-58 | exactly the named ledger row becomes resolved; not found if there is none |
| `Engine.StartExecution` | backend/app/services/execution_engine.py:62-125 | starts exactly the workflows the validator accepts; one row per node, with its own attempt limit, else the workflow's, else 3; exactly the nodes without parents are QUEUED on attempt 1 and published, once each |
| `Engine.DownstreamIsSuccess` | backend/app/worker/runtime.py:257-318 | the loops' result is the declarative success transaction, rows and jobs |
| `RefreshTokens.TokenTable.Login` | backend/app/api/auth.py:55-69 | one new valid row, all others unchanged; with fresh ids the families stay in order and the new token is the only valid one of its family |
| `RefreshTokens.TokenTable.Refresh` | backend/app/api/auth.py:98-140 | the answer in each of the five cases (missing, unknown, reused, expired, accepted) and every row it leaves: reuse invalidates exactly the family, acceptance replaces exactly the presented token |
| `RefreshTokens.TokenTable.Logout` | backend/app/api/auth.py:173-181 | the presented token, if it exists, becomes invalid; no other row changes |
| `RefreshTokens.AnyCallMayFollow` | backend/app/api/auth.py:55-181 | every login and refresh with new ids, whatever token it presents, and every logout continues a run |
| `RefreshTokens.FamiliesAlwaysOk` | backend/app/api/auth.py:108-140 | in every run each family has at most one valid token and one api key |
| `RefreshTokens.DeadFamilyStaysDead` | backend/app/api/auth.py:111-140 | a family without a valid token never regains one and never refreshes again |
| `RefreshTokens.ReuseKillsFamily` | backend/app/api/auth.py:111-122 | presenting a rotated token, expired or not, is answered as reuse, kills the family for good and touches no other |
| `RefreshTokens.AcceptedOnce` | backend/app/api/auth.py:124-140 | no token is accepted twice |
| `RefreshTokens.RotationContinues` | backend/app/api/auth.py:124-140 | an accepted refresh hands the family over to the new token, which alone is accepted next, until it expires; no other token changes |
| `RefreshTokens.LogoutKillsFamily` | backend/app/api/auth.py:173-181 | logging out with the valid token ends its family |
| `RateLimiter.Limiter.IsAllowed` | backend/app/api/middleware/rate_limit.py:24-35 | keeps exactly the timestamps after the cutoff, adds the new one, leaves other identifiers alone and compares the count with the limit |
| `RateLimiter.PrunedCountIsHistoryCount` | backend/app/api/middleware/rate_limit.py:27-33 | the pruned count equals the count of the identifier's requests in the last window over the full history, rejected ones included |
| `RateLimiter.AcceptedIffFewInWindow` | backend/app/api/middleware/rate_limit.py:32-33 | a request is let through iff at most `limit` requests of its identifier fall into the window that ends with it |
| `RateLimiter.AcceptedRequestsSpread` | backend/app/api/middleware/rate_limit.py:27-35 | any limit + 1 accepted requests of one identifier span at least the window |

## Left out

- HTTP, webhook, delay, notification and transform executors and the URL checks: an executor is an arbitrary result, or any function.
- The condition expression parser: the executor's boolean result, and so the chosen branch, is given.
- SQLAlchemy sessions, the identity map, isolation levels and migrations: transactions are atomic, as listed under the modelling decisions.
- The Redis client, group creation, blocking reads, idle times and batch sizes: an abstract consumer group with deliver, claim and acknowledge.
- The stream-message id written back to a row after publishing, timestamps, error messages, resolution notes and log events: no property depends on them.
- gRPC, protobuf, DTOs, WebSocket broadcasting, heartbeats, worker registration, metrics, listing and pagination: plumbing or notification only.
- JWT creation, hashing, cookies and API-key authentication; ownership checks of the API.
- Version numbers, checksums, deletion of workflows and executions, cancellation statuses: no property of a run depends on them.
- Backoff fields of the retry policy and edge conditions: in the schema, but not read by the engine.
- All other editor code; removing nodes or edges on the canvas, which cannot create a cycle.
- The Redis-backed rate limiter: a script executed by the server.
- Convergence.EveryRunCanFinish: states that a careful continuation exists; that a scheduler takes it follows for runs without deaths from `Uninterrupted` and `Termination`.
- Termination.RunsAreBounded: does not bound the reclaims of a run with deaths; a worker that dies before it acknowledges leaves a second job for its node, and such jobs can turn each other away several times before they are used up.
- Engine.Store.TransitionExecution: does not model the not-found error, because a store always holds its one execution row.
