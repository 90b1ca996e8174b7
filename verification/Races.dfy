/** Condition branches and races.  Two RUNNING nodes may complete in either order;
    this module says exactly when the order matters. */
module Races {
  import opened Graph
  import opened Model
  import opened Transactions
  import opened Invariants
  import opened Evaluation

  ghost predicate BothRunning(w: Workflow, rows: map<NodeId, NodeRow>, a: NodeId, b: NodeId) {
    a != b && IsNode(w, a) && IsNode(w, b) && HasStatus(rows, a, RUNNING) && HasStatus(rows, b, RUNNING)
  }

  /** `a` succeeds, and then `b`. */
  ghost function Both(w: Workflow, rows: map<NodeId, NodeRow>, a: NodeId, oa: Payload, b: NodeId,
                      ob: Payload): map<NodeId, NodeRow>
    requires BothRunning(w, rows, a, b)
  {
    RowsAfterSuccess(w, RowsAfterSuccess(w, rows, a, oa), b, ob)
  }

  /** One would skip the PENDING node `x` as a branch it did not choose, the other would release it. */
  ghost predicate Clash(w: Workflow, rows: map<NodeId, NodeRow>, a: NodeId, oa: Payload, b: NodeId, ob: Payload,
                        x: NodeId)
    requires BothRunning(w, rows, a, b)
  {
    x in SkipSeeds(w, a, oa) && HasStatus(rows, x, PENDING) && ReleasedBy(w, rows, b, ob, x)
  }

  ghost predicate NoClash(w: Workflow, rows: map<NodeId, NodeRow>, a: NodeId, oa: Payload, b: NodeId, ob: Payload)
    requires BothRunning(w, rows, a, b)
  {
    forall x :: !Clash(w, rows, a, oa, b, ob, x) && !Clash(w, rows, b, ob, a, oa, x)
  }

  // ----- no clash: the order does not matter -----

  /** A node that one of the two releases, or both together. */
  ghost predicate Freed(w: Workflow, rows: map<NodeId, NodeRow>, a: NodeId, b: NodeId, x: NodeId) {
    && (Edge(a, x) in w.edges || Edge(b, x) in w.edges)
    && forall p :: Edge(p, x) in w.edges ==> p == a || p == b || HasStatus(rows, p, SUCCEEDED)
  }

  /** Along a cascade of `b`, nothing is released by `a`. */
  lemma CascadeNotReleased(w: Workflow, rows: map<NodeId, NodeRow>, a: NodeId, oa: Payload, b: NodeId, ob: Payload,
                           path: seq<NodeId>, i: nat)
    requires BothRunning(w, rows, a, b) && NoClash(w, rows, a, oa, b, ob)
    requires IsPath(w.edges, path) && path[0] in SkipSeeds(w, b, ob) && i < |path|
    requires forall k :: 0 <= k < |path| ==> HasStatus(rows, path[k], PENDING)
    ensures !ReleasedBy(w, rows, a, oa, path[i])
  {
    if i == 0 {
      assert !Clash(w, rows, b, ob, a, oa, path[0]);
    } else {
      assert Edge(path[i - 1], path[i]) in w.edges;
      assert HasStatus(rows, path[i - 1], PENDING);
    }
  }

  /** What one cascade skips on a path, it skips to the end of the path. */
  lemma {:induction false} SkipsToTheEnd(w: Workflow, rows: map<NodeId, NodeRow>, a: NodeId, oa: Payload,
                                         path: seq<NodeId>, i: nat)
    requires IsNode(w, a) && HasStatus(rows, a, RUNNING) && IsPath(w.edges, path) && i < |path|
    requires forall k :: 0 <= k < |path| ==> HasStatus(rows, path[k], PENDING)
    requires path[i] in SkippedBy(w, rows, a, oa)
    ensures path[|path| - 1] in SkippedBy(w, rows, a, oa)
    decreases |path| - i
  {
    if i + 1 < |path| {
      assert Edge(path[i], path[i + 1]) in w.edges;
      assert HasStatus(rows, path[i + 1], PENDING);
      ClosureChild(w.edges, SucceededRows(w, rows, a, oa), SkipSeeds(w, a, oa), path[i], path[i + 1]);
      SkipsToTheEnd(w, rows, a, oa, path, i + 1);
    }
  }

  /** A PENDING path from a seed is skipped. */
  lemma PathIsSkipped(w: Workflow, rows: map<NodeId, NodeRow>, n: NodeId, output: Payload, path: seq<NodeId>)
    requires IsNode(w, n) && HasStatus(rows, n, RUNNING)
    requires IsPath(w.edges, path) && path[0] in SkipSeeds(w, n, output)
    requires forall k :: 0 <= k < |path| ==> HasStatus(rows, path[k], PENDING)
    ensures path[|path| - 1] in SkippedBy(w, rows, n, output)
  {
  }

  lemma StillPending(w: Workflow, rows: map<NodeId, NodeRow>, a: NodeId, oa: Payload, x: NodeId)
    requires IsNode(w, a) && HasStatus(rows, a, RUNNING) && x in rows
    ensures HasStatus(RowsAfterSuccess(w, rows, a, oa), x, PENDING) <==>
      HasStatus(rows, x, PENDING) && x !in SkippedBy(w, rows, a, oa) && !ReleasedBy(w, rows, a, oa, x)
  {
  }

  /** What `b` would skip alone, it still skips after `a`, unless `a` did. */
  lemma StillSkipped(w: Workflow, rows: map<NodeId, NodeRow>, a: NodeId, oa: Payload, b: NodeId, ob: Payload, x: NodeId)
    requires BothRunning(w, rows, a, b) && NoClash(w, rows, a, oa, b, ob)
    requires HasStatus(RowsAfterSuccess(w, rows, a, oa), b, RUNNING)
    requires x in SkippedBy(w, rows, b, ob) && x !in SkippedBy(w, rows, a, oa)
    ensures x in SkippedBy(w, RowsAfterSuccess(w, rows, a, oa), b, ob)
  {
    var path := CascadePath(w, rows, b, ob, x);
    forall i | 0 <= i < |path| ensures HasStatus(RowsAfterSuccess(w, rows, a, oa), path[i], PENDING) {
      CascadeNotReleased(w, rows, a, oa, b, ob, path, i);
      if path[i] in SkippedBy(w, rows, a, oa) { SkipsToTheEnd(w, rows, a, oa, path, i); }
      StillPending(w, rows, a, oa, path[i]);
    }
    PathIsSkipped(w, RowsAfterSuccess(w, rows, a, oa), b, ob, path);
  }

  /** After `a`, `b` skips nothing that it would not skip alone. */
  lemma NotSkippedMore(w: Workflow, rows: map<NodeId, NodeRow>, a: NodeId, oa: Payload, b: NodeId, ob: Payload,
                       x: NodeId)
    requires BothRunning(w, rows, a, b)
    requires HasStatus(RowsAfterSuccess(w, rows, a, oa), b, RUNNING)
    ensures x in SkippedBy(w, RowsAfterSuccess(w, rows, a, oa), b, ob) ==> x in SkippedBy(w, rows, b, ob)
  {
    var first := RowsAfterSuccess(w, rows, a, oa);
    if x in SkippedBy(w, first, b, ob) {
      var path := CascadePath(w, first, b, ob, x);
      SuccessEffect(w, rows, a, oa);
      forall i | 0 <= i < |path| ensures HasStatus(rows, path[i], PENDING) {
        assert HasStatus(first, path[i], PENDING);
        StillPending(w, rows, a, oa, path[i]);
      }
      PathIsSkipped(w, rows, b, ob, path);
    }
  }

  /** Where a PENDING node ends up, said without an order. */
  ghost predicate EndsAs(w: Workflow, rows: map<NodeId, NodeRow>, a: NodeId, oa: Payload, b: NodeId, ob: Payload,
                         x: NodeId, after: NodeRow)
    requires BothRunning(w, rows, a, b) && x in rows
  {
    if x in SkippedBy(w, rows, a, oa) || x in SkippedBy(w, rows, b, ob) then after == rows[x].(status := SKIPPED)
    else if Freed(w, rows, a, b, x) then after == Enqueued(rows[x])
    else after == rows[x]
  }

  lemma SecondEffect(w: Workflow, rows: map<NodeId, NodeRow>, a: NodeId, oa: Payload, b: NodeId, ob: Payload, x: NodeId)
    requires BothRunning(w, rows, a, b) && x in rows
    ensures HasStatus(RowsAfterSuccess(w, rows, a, oa), b, RUNNING)
    ensures SuccessAt(w, rows, a, oa, x) && x in Both(w, rows, a, oa, b, ob)
    ensures SuccessAt(w, RowsAfterSuccess(w, rows, a, oa), b, ob, x)
    ensures Both(w, rows, a, oa, b, ob).Keys == rows.Keys
  {
    SuccessEffect(w, rows, a, oa);
    assert SuccessAt(w, rows, a, oa, b);
    SuccessEffect(w, RowsAfterSuccess(w, rows, a, oa), b, ob);
  }

  lemma ReleasedIsFreed(w: Workflow, rows: map<NodeId, NodeRow>, a: NodeId, oa: Payload, b: NodeId, x: NodeId)
    requires BothRunning(w, rows, a, b) && ReleasedBy(w, rows, a, oa, x)
    ensures Freed(w, rows, a, b, x)
  {
    forall p | Edge(p, x) in w.edges ensures p == a || HasStatus(rows, p, SUCCEEDED) {
      assert HasStatus(SucceededRows(w, rows, a, oa), p, SUCCEEDED);
    }
  }

  /** A PENDING node that neither skips and the first does not release is released by the second exactly
      if both together free it. */
  lemma ReleasedSecond(w: Workflow, rows: map<NodeId, NodeRow>, a: NodeId, oa: Payload, b: NodeId, ob: Payload,
                       x: NodeId, first: map<NodeId, NodeRow>)
    requires BothRunning(w, rows, a, b) && HasStatus(rows, x, PENDING) &&
      HasStatus(first, b, RUNNING) && HasStatus(first, x, PENDING)
    requires forall p :: HasStatus(first, p, SUCCEEDED) <==> p == a || HasStatus(rows, p, SUCCEEDED)
    requires x !in SkippedBy(w, rows, a, oa) && !ReleasedBy(w, rows, a, oa, x) && x !in SkippedBy(w, first, b, ob)
    ensures ReleasedBy(w, first, b, ob, x) <==> Freed(w, rows, a, b, x)
  {
    var done, once := SucceededRows(w, first, b, ob), SucceededRows(w, rows, a, oa);
    forall p
      ensures HasStatus(done, p, SUCCEEDED) <==> p == a || p == b || HasStatus(rows, p, SUCCEEDED)
      ensures HasStatus(once, p, SUCCEEDED) <==> p == a || HasStatus(rows, p, SUCCEEDED)
    {
      assert HasStatus(first, p, SUCCEEDED) <==> p == a || HasStatus(rows, p, SUCCEEDED);
    }
    if Freed(w, rows, a, b, x) {
      assert AllParentsSucceeded(w.edges, done, x);
      if Edge(b, x) !in w.edges { assert AllParentsSucceeded(w.edges, once, x); }
    }
  }

  lemma ReleasedEither(w: Workflow, rows: map<NodeId, NodeRow>, a: NodeId, oa: Payload, b: NodeId, ob: Payload,
                       x: NodeId)
    requires BothRunning(w, rows, a, b) && HasStatus(rows, x, PENDING) &&
      HasStatus(RowsAfterSuccess(w, rows, a, oa), b, RUNNING)
    requires x !in SkippedBy(w, rows, a, oa) && !ReleasedBy(w, rows, a, oa, x)
    requires x !in SkippedBy(w, RowsAfterSuccess(w, rows, a, oa), b, ob)
    ensures ReleasedBy(w, RowsAfterSuccess(w, rows, a, oa), b, ob, x) <==> Freed(w, rows, a, b, x)
  {
    var first := RowsAfterSuccess(w, rows, a, oa);
    forall p ensures HasStatus(first, p, SUCCEEDED) <==> p == a || HasStatus(rows, p, SUCCEEDED) {
      SuccessKeepsSucceeded(w, rows, a, oa, p);
    }
    StillPending(w, rows, a, oa, x);
    ReleasedSecond(w, rows, a, oa, b, ob, x, first);
  }

  /** A node that is not PENDING changes only if it is one of the two. */
  lemma OtherEnds(w: Workflow, rows: map<NodeId, NodeRow>, a: NodeId, oa: Payload, b: NodeId, ob: Payload, x: NodeId)
    requires BothRunning(w, rows, a, b) && x in rows && rows[x].status != PENDING
    ensures x in Both(w, rows, a, oa, b, ob)
    ensures Both(w, rows, a, oa, b, ob)[x] ==
      if x == a then rows[x].(status := SUCCEEDED, output := Some(oa))
      else if x == b then rows[x].(status := SUCCEEDED, output := Some(ob))
      else rows[x]
  {
    SecondEffect(w, rows, a, oa, b, ob, x);
  }

  lemma PendingEnds(w: Workflow, rows: map<NodeId, NodeRow>, a: NodeId, oa: Payload, b: NodeId, ob: Payload, x: NodeId)
    requires BothRunning(w, rows, a, b) && NoClash(w, rows, a, oa, b, ob) && HasStatus(rows, x, PENDING)
    ensures x in Both(w, rows, a, oa, b, ob) && EndsAs(w, rows, a, oa, b, ob, x, Both(w, rows, a, oa, b, ob)[x])
  {
    var first := RowsAfterSuccess(w, rows, a, oa);
    SecondEffect(w, rows, a, oa, b, ob, x);
    if x !in SkippedBy(w, rows, a, oa) {
      if x in SkippedBy(w, rows, b, ob) {
        StillSkipped(w, rows, a, oa, b, ob, x);
        SkippedIsPending(w.edges, SucceededRows(w, first, b, ob), SkipSeeds(w, b, ob), x);
      } else {
        NotSkippedMore(w, rows, a, oa, b, ob, x);
        if ReleasedBy(w, rows, a, oa, x) {
          ReleasedIsFreed(w, rows, a, oa, b, x);
        } else {
          ReleasedEither(w, rows, a, oa, b, ob, x);
        }
      }
    }
  }

  lemma EndsAlike(w: Workflow, rows: map<NodeId, NodeRow>, a: NodeId, oa: Payload, b: NodeId, ob: Payload, x: NodeId)
    requires BothRunning(w, rows, a, b) && NoClash(w, rows, a, oa, b, ob)
    ensures x in Both(w, rows, a, oa, b, ob) <==> x in rows
    ensures x in rows ==> Both(w, rows, a, oa, b, ob)[x] == Both(w, rows, b, ob, a, oa)[x]
  {
    if x in rows {
      if rows[x].status == PENDING {
        PendingEnds(w, rows, a, oa, b, ob, x);
        PendingEnds(w, rows, b, ob, a, oa, x);
      } else {
        OtherEnds(w, rows, a, oa, b, ob, x);
        OtherEnds(w, rows, b, ob, a, oa, x);
      }
    }
  }

  ghost predicate OrderMatters(w: Workflow, rows: map<NodeId, NodeRow>, a: NodeId, oa: Payload, b: NodeId, ob: Payload)
    requires BothRunning(w, rows, a, b)
  {
    Both(w, rows, a, oa, b, ob) != Both(w, rows, b, ob, a, oa)
  }

  lemma NoClashCommutes(w: Workflow, rows: map<NodeId, NodeRow>, a: NodeId, oa: Payload, b: NodeId, ob: Payload)
    requires BothRunning(w, rows, a, b) && NoClash(w, rows, a, oa, b, ob)
    ensures !OrderMatters(w, rows, a, oa, b, ob)
  {
    hide RowsAfterSuccess, Clash;
    forall x
      ensures x in Both(w, rows, a, oa, b, ob) <==> x in rows
      ensures x in Both(w, rows, b, ob, a, oa) <==> x in rows
      ensures x in rows ==> Both(w, rows, a, oa, b, ob)[x] == Both(w, rows, b, ob, a, oa)[x]
    {
      EndsAlike(w, rows, a, oa, b, ob, x);
      EndsAlike(w, rows, b, ob, a, oa, x);
    }
  }

  // ----- a clash: whoever comes first decides -----

  /** If the condition comes first the branch is SKIPPED, if the releasing parent does it is QUEUED, whatever
      the two put out. */
  lemma FirstComerDecides(w: Workflow, rows: map<NodeId, NodeRow>, a: NodeId, oa: Payload, b: NodeId, ob: Payload,
                          x: NodeId)
    requires BothRunning(w, rows, a, b) && Clash(w, rows, a, oa, b, ob, x)
    ensures HasStatus(Both(w, rows, a, oa, b, ob), x, SKIPPED)
    ensures HasStatus(Both(w, rows, b, ob, a, oa), x, QUEUED)
  {
    ClosureSeed(w.edges, SucceededRows(w, rows, a, oa), SkipSeeds(w, a, oa), x);
    SecondEffect(w, rows, a, oa, b, ob, x);
    SecondEffect(w, rows, b, ob, a, oa, x);
  }

  /** The exact condition, in any state: the order of two completions matters if and only if one of them
      would skip, as a branch not chosen, a PENDING node that the other would release. */
  lemma OrderMattersIffClash(w: Workflow, rows: map<NodeId, NodeRow>, a: NodeId, oa: Payload, b: NodeId, ob: Payload)
    requires BothRunning(w, rows, a, b)
    ensures OrderMatters(w, rows, a, oa, b, ob) <==>
            exists x :: Clash(w, rows, a, oa, b, ob, x) || Clash(w, rows, b, ob, a, oa, x)
  {
    hide RowsAfterSuccess, Both;
    if x :| Clash(w, rows, a, oa, b, ob, x) {
      FirstComerDecides(w, rows, a, oa, b, ob, x);
    } else if x :| Clash(w, rows, b, ob, a, oa, x) {
      FirstComerDecides(w, rows, b, ob, a, oa, x);
    } else {
      NoClashCommutes(w, rows, a, oa, b, ob);
    }
  }

  // ----- settled branches never clash -----

  /** A node below `b` cannot be released while `b` is RUNNING. */
  lemma NotReleasedBelow(w: Workflow, rows: map<NodeId, NodeRow>, a: NodeId, oa: Payload, b: NodeId, x: NodeId)
    requires RowsInv(w, rows) && BothRunning(w, rows, a, b) && Reaches(w.edges, b, x)
    ensures !ReleasedBy(w, rows, a, oa, x)
  {
    var q := ReachesLastEdge(w.edges, b, x);
    if HasStatus(SucceededRows(w, rows, a, oa), q, SUCCEEDED) {
      assert q != b;
      AncestorsSucceeded(w, rows, b, q);
    }
  }

  lemma SettledNeverClash(w: Workflow, rows: map<NodeId, NodeRow>, a: NodeId, oa: Payload, b: NodeId, ob: Payload,
                          x: NodeId)
    requires RowsInv(w, rows) && BranchesSettled(w) && BothRunning(w, rows, a, b)
    ensures !Clash(w, rows, a, oa, b, ob, x)
  {
    if x in SkipSeeds(w, a, oa) && HasStatus(rows, x, PENDING) {
      SeedIsBelow(w, rows, a, oa, x);
      NotReleasedBelow(w, rows, b, ob, a, x);
    }
  }

  /** With settled branches two completions commute in every state that satisfies the invariant. */
  lemma OrderIrrelevant(w: Workflow, rows: map<NodeId, NodeRow>, a: NodeId, oa: Payload, b: NodeId, ob: Payload)
    requires RowsInv(w, rows) && BranchesSettled(w) && BothRunning(w, rows, a, b)
    ensures Both(w, rows, a, oa, b, ob) == Both(w, rows, b, ob, a, oa)
  {
    hide RowsAfterSuccess, Both, Clash, RowsInv, BranchesSettled;
    forall x ensures !Clash(w, rows, a, oa, b, ob, x) && !Clash(w, rows, b, ob, a, oa, x) {
      SettledNeverClash(w, rows, a, oa, b, ob, x);
      SettledNeverClash(w, rows, b, ob, a, oa, x);
    }
    NoClashCommutes(w, rows, a, oa, b, ob);
  }
}
