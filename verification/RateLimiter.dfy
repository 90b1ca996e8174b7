/** The in-memory sliding-window limiter: a pruned list of timestamps per identifier. */
module RateLimiter {

  /** The timestamps strictly after `cutoff`, in order. */
  function Recent(times: seq<real>, cutoff: real): seq<real> {
    if times == [] then []
    else
      var rest := Recent(times[..|times| - 1], cutoff);
      if times[|times| - 1] > cutoff then rest + [times[|times| - 1]] else rest
  }

  function Listed(requests: map<string, seq<real>>, id: string): seq<real> {
    if id in requests then requests[id] else []
  }

  function Recorded(requests: map<string, seq<real>>, id: string, window: real, now: real): map<string, seq<real>> {
    requests[id := Recent(Listed(requests, id), now - window) + [now]]
  }

  /** The comprehension that keeps the timestamps after the cutoff. */
  method Prune(times: seq<real>, cutoff: real) returns (kept: seq<real>)
    ensures kept == Recent(times, cutoff)
    ensures forall t :: multiset(kept)[t] == if t > cutoff then multiset(times)[t] else 0
  {
    kept := [];
    for i := 0 to |times|
      invariant kept == Recent(times[..i], cutoff)
    {
      assert times[..i + 1][..i] == times[..i];
      if times[i] > cutoff {
        kept := kept + [times[i]];
      }
    }
    assert times[..|times|] == times;
    RecentIsFilter(times, cutoff);
  }

  class Limiter {
    var requests: map<string, seq<real>>

    constructor ()
      ensures requests == map[]
    {
      requests := map[];
    }

    method IsAllowed(id: string, limit: int, window: real, now: real) returns (allowed: bool, remaining: int)
      modifies this
      ensures requests == Recorded(old(requests), id, window, now)
      ensures requests.Keys == old(requests).Keys + {id} &&
        forall x :: x in old(requests) && x != id ==> requests[x] == old(requests)[x]
      ensures requests[id] != [] && requests[id][|requests[id]| - 1] == now
      ensures forall t ::
        multiset(requests[id])[t] ==
          (if id in old(requests) && t > now - window then multiset(old(requests)[id])[t] else 0) +
          (if t == now then 1 else 0)
      ensures allowed <==> |requests[id]| <= limit
      ensures remaining >= 0 && (allowed ==> remaining == limit - |requests[id]|) && (!allowed ==> remaining == 0)
    {
      var timestamps: seq<real> := if id in requests then requests[id] else [];
      var kept := Prune(timestamps, now - window);
      kept := kept + [now];
      requests := requests[id := kept];
      var count := |kept|;
      allowed := count <= limit;
      remaining := if limit - count > 0 then limit - count else 0;
    }
  }

  /** Pruning keeps each timestamp after the cutoff as often as it occurred, and no other. */
  lemma {:induction false} RecentIsFilter(times: seq<real>, cutoff: real)
    ensures forall t :: multiset(Recent(times, cutoff))[t] == if t > cutoff then multiset(times)[t] else 0
    decreases |times|
  {
    if times != [] {
      var front, last := times[..|times| - 1], times[|times| - 1];
      RecentIsFilter(front, cutoff);
      assert times == front + [last];
    }
  }

  // ----- the full history -----

  datatype Request = Request(id: string, time: real)

  ghost predicate Clocked(reqs: seq<Request>) {
    forall i, j :: 0 <= i < j < |reqs| ==> reqs[i].time <= reqs[j].time
  }

  /** The limiter's table after the first `k` requests. */
  function TableAfter(reqs: seq<Request>, window: real, k: nat): map<string, seq<real>>
    requires k <= |reqs|
  {
    if k == 0 then map[] else Recorded(TableAfter(reqs, window, k - 1), reqs[k - 1].id, window, reqs[k - 1].time)
  }

  /** All timestamps of `id` among the first `k` requests, accepted or rejected. */
  function TimesOf(reqs: seq<Request>, id: string, k: nat): seq<real>
    requires k <= |reqs|
  {
    if k == 0 then []
    else if reqs[k - 1].id == id then TimesOf(reqs, id, k - 1) + [reqs[k - 1].time]
    else TimesOf(reqs, id, k - 1)
  }

  /** How many of the first `k` requests of `id` came after `cutoff`: the reference count. */
  function CountSince(reqs: seq<Request>, id: string, cutoff: real, k: nat): nat
    requires k <= |reqs|
  {
    if k == 0 then 0
    else CountSince(reqs, id, cutoff, k - 1) + if reqs[k - 1].id == id && reqs[k - 1].time > cutoff then 1 else 0
  }

  /** Pruning twice with growing cutoffs is pruning once with the later one. */
  lemma {:induction false} PruneTwice(times: seq<real>, early: real, late: real)
    requires early <= late
    ensures Recent(Recent(times, early), late) == Recent(times, late)
    decreases |times|
  {
    if times != [] {
      var front, last := times[..|times| - 1], times[|times| - 1];
      PruneTwice(front, early, late);
      if last > early { RecentAppend(Recent(front, early), last, late); }
    }
  }

  lemma RecentAppend(times: seq<real>, t: real, cutoff: real)
    ensures Recent(times + [t], cutoff) == Recent(times, cutoff) + if t > cutoff then [t] else []
  {
  }

  /** Whatever was pruned earlier, pruning at a later cutoff gives the recent part of the full history. */
  lemma {:induction false} ListIsRecentHistory(reqs: seq<Request>, id: string, window: real, k: nat, cutoff: real)
    requires Clocked(reqs) && k <= |reqs|
    requires forall i :: 0 <= i < k ==> reqs[i].time - window <= cutoff
    ensures Recent(Listed(TableAfter(reqs, window, k), id), cutoff) == Recent(TimesOf(reqs, id, k), cutoff)
    decreases k
  {
    if k > 0 {
      var r := reqs[k - 1];
      if r.id == id {
        var before := Listed(TableAfter(reqs, window, k - 1), id);
        var early := r.time - window;
        assert Listed(TableAfter(reqs, window, k), id) == Recent(before, early) + [r.time];
        RecentAppend(Recent(before, early), r.time, cutoff);
        RecentAppend(TimesOf(reqs, id, k - 1), r.time, cutoff);
        PruneTwice(before, early, cutoff);
        forall i | 0 <= i < k - 1 ensures reqs[i].time - window <= cutoff {}
      }
      ListIsRecentHistory(reqs, id, window, k - 1, cutoff);
    }
  }

  lemma {:induction false} RecentCounts(reqs: seq<Request>, id: string, cutoff: real, k: nat)
    requires k <= |reqs|
    ensures |Recent(TimesOf(reqs, id, k), cutoff)| == CountSince(reqs, id, cutoff, k)
    decreases k
  {
    if k > 0 {
      RecentCounts(reqs, id, cutoff, k - 1);
      if reqs[k - 1].id == id { RecentAppend(TimesOf(reqs, id, k - 1), reqs[k - 1].time, cutoff); }
    }
  }

  /** The count the limiter compares with its limit is the number of requests of this identifier in the
      last window, over the full history, rejected ones included. */
  lemma PrunedCountIsHistoryCount(reqs: seq<Request>, window: real, k: nat)
    requires Clocked(reqs) && 0.0 < window && k < |reqs|
    ensures
      var r := reqs[k];
      |Listed(TableAfter(reqs, window, k + 1), r.id)| == CountSince(reqs, r.id, r.time - window, k + 1)
  {
    var r := reqs[k];
    forall i | 0 <= i < k ensures reqs[i].time - window <= r.time - window {}
    ListIsRecentHistory(reqs, r.id, window, k, r.time - window);
    RecentCounts(reqs, r.id, r.time - window, k);
  }

  /** Request `k` was let through. */
  predicate Accepted(reqs: seq<Request>, limit: nat, window: real, k: nat)
    requires k < |reqs|
  {
    |Listed(TableAfter(reqs, window, k + 1), reqs[k].id)| <= limit
  }

  /** A request is let through exactly if at most `limit` requests of its identifier, itself included,
      fall into the window that ends with it. */
  lemma AcceptedIffFewInWindow(reqs: seq<Request>, limit: nat, window: real, k: nat)
    requires Clocked(reqs) && 0.0 < window && k < |reqs|
    ensures Accepted(reqs, limit, window, k) <==> CountSince(reqs, reqs[k].id, reqs[k].time - window, k + 1) <= limit
  {
    PrunedCountIsHistoryCount(reqs, window, k);
  }

  ghost predicate Increasing(picks: seq<nat>) {
    forall i, j :: 0 <= i < j < |picks| ==> picks[i] < picks[j]
  }

  lemma {:induction false} PicksAreCounted(reqs: seq<Request>, id: string, cutoff: real, picks: seq<nat>, k: nat)
    requires k <= |reqs| && Increasing(picks)
    requires forall i :: 0 <= i < |picks| ==> picks[i] < k && reqs[picks[i]].id == id && reqs[picks[i]].time > cutoff
    ensures |picks| <= CountSince(reqs, id, cutoff, k)
    decreases k
  {
    if picks != [] {
      var last := picks[|picks| - 1];
      if last == k - 1 {
        PicksAreCounted(reqs, id, cutoff, picks[..|picks| - 1], k - 1);
      } else {
        forall i | 0 <= i < |picks| ensures picks[i] < k - 1 {
          if i < |picks| - 1 { assert picks[i] < last; }
        }
        PicksAreCounted(reqs, id, cutoff, picks, k - 1);
      }
    }
  }

  /** Requests that all came after `cutoff` are all counted at the last of them. */
  lemma CrowdIsCounted(reqs: seq<Request>, id: string, cutoff: real, picks: seq<nat>)
    requires Clocked(reqs) && Increasing(picks) && picks != []
    requires forall i :: 0 <= i < |picks| ==> picks[i] < |reqs| && reqs[picks[i]].id == id
    ensures reqs[picks[0]].time > cutoff ==> |picks| <= CountSince(reqs, id, cutoff, picks[|picks| - 1] + 1)
  {
    if reqs[picks[0]].time > cutoff {
      var last := picks[|picks| - 1];
      forall i | 0 <= i < |picks| ensures picks[i] < last + 1 && reqs[picks[i]].time > cutoff {
        if 0 < i { assert picks[0] < picks[i]; }
        if i < |picks| - 1 { assert picks[i] < picks[|picks| - 1]; }
      }
      PicksAreCounted(reqs, id, cutoff, picks, last + 1);
    }
  }

  /** Any `limit + 1` accepted requests of one identifier span at least the window. */
  lemma AcceptedRequestsSpread(reqs: seq<Request>, id: string, limit: nat, window: real, picks: seq<nat>)
    requires Clocked(reqs) && 0.0 < window && Increasing(picks) && |picks| == limit + 1
    requires forall i :: 0 <= i < |picks| ==> picks[i] < |reqs| && reqs[picks[i]].id == id
    requires forall i :: 0 <= i < |picks| ==> Accepted(reqs, limit, window, picks[i])
    ensures reqs[picks[|picks| - 1]].time - reqs[picks[0]].time >= window
  {
    var last := picks[|picks| - 1];
    AcceptedIffFewInWindow(reqs, limit, window, last);
    CrowdIsCounted(reqs, id, reqs[last].time - window, picks);
  }
}
