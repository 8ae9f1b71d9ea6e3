/** The sliding window of upstream failures and the choice of an upstream (omni-proxy/src/proxy.rs). */
module UpstreamHealth {
  import opened Wrappers

  /** Failure instants, oldest first. */
  type Failures = seq<int>

  /** `saturating_duration_since`. */
  function Since(now: int, t: int): nat { if now > t then now - t else 0 }

  function Recorded(d: Failures, now: int): Failures { d + [now] }

  function Forgiven(d: Failures): Failures { if d == [] then [] else d[1..] }

  function Pruned(d: Failures, now: int, window: nat): Failures {
    if d != [] && Since(now, d[0]) > window then Pruned(d[1..], now, window) else d
  }

  class Health {
    var failures: Failures

    constructor ()
      ensures failures == []
    {
      failures := [];
    }

    method RecordFailure(now: int)
      modifies this
      ensures failures == Recorded(old(failures), now) == old(failures) + [now]
    {
      failures := failures + [now];
    }

    method RecordSuccess()
      modifies this
      ensures failures == Forgiven(old(failures))
      ensures old(failures) != [] ==> old(failures) == [old(failures)[0]] + failures
      ensures old(failures) == [] ==> failures == []
    {
      if failures != [] { failures := failures[1..]; }
    }

    method RecentFailures(window: nat, now: int) returns (n: nat)
      modifies this
      ensures failures == Pruned(old(failures), now, window) && n == |failures|
    {
      while failures != [] && Since(now, failures[0]) > window
        invariant Pruned(failures, now, window) == Pruned(old(failures), now, window)
        decreases |failures|
      {
        failures := failures[1..];
      }
      n := |failures|;
    }

    method IsDegraded(threshold: nat, window: nat, now: int) returns (degraded: bool)
      modifies this
      ensures failures == Pruned(old(failures), now, window)
      ensures degraded <==> |failures| >= threshold
    {
      var n := RecentFailures(window, now);
      degraded := n >= threshold;
    }
  }

  // ----- Runs of one health object -----

  datatype Event = Failure(at: int) | Success(at: int) | Query(at: int)

  function Apply(d: Failures, e: Event, window: nat): Failures {
    match e
    case Failure(at) => Recorded(d, at)
    case Success(_) => Forgiven(d)
    case Query(at) => Pruned(d, at, window)
  }

  /** The deque after a run of events on a new object. */
  function After(events: seq<Event>, window: nat): Failures {
    if events == [] then []
    else Apply(After(events[..|events| - 1], window), events[|events| - 1], window)
  }

  predicate Monotone(events: seq<Event>, now: int) {
    && (forall i, j :: 0 <= i < j < |events| ==> events[i].at <= events[j].at)
    && forall i :: 0 <= i < |events| ==> events[i].at <= now
  }

  function FailuresSince(events: seq<Event>, from: int): nat {
    if events == [] then 0
    else
      var last := events[|events| - 1];
      FailuresSince(events[..|events| - 1], from) + if last.Failure? && last.at >= from then 1 else 0
  }

  function SuccessesSince(events: seq<Event>, from: int): nat {
    if events == [] then 0
    else
      var last := events[|events| - 1];
      SuccessesSince(events[..|events| - 1], from) + if last.Success? && last.at >= from then 1 else 0
  }

  predicate SortedUpTo(d: Failures, now: int) {
    && (forall i, j :: 0 <= i < j < |d| ==> d[i] <= d[j])
    && forall i :: 0 <= i < |d| ==> d[i] <= now
  }

  function CountSince(d: Failures, from: int): nat {
    if d == [] then 0 else (if d[0] >= from then 1 else 0) + CountSince(d[1..], from)
  }

  lemma {:induction false} CountSinceSnoc(d: Failures, x: int, from: int)
    ensures CountSince(d + [x], from) == CountSince(d, from) + if x >= from then 1 else 0
  {
    if d == [] {
      assert d + [x] == [x];
    } else {
      CountSinceSnoc(d[1..], x, from);
      assert (d + [x])[1..] == d[1..] + [x];
    }
  }

  lemma {:induction false} CountSinceAll(d: Failures, from: int)
    requires forall i :: 0 <= i < |d| ==> d[i] >= from
    ensures CountSince(d, from) == |d|
  {
    if d != [] { CountSinceAll(d[1..], from); }
  }

  lemma {:induction false} PrunedKeeps(d: Failures, at: int, window: nat, from: int, now: int)
    requires SortedUpTo(d, now) && at - window <= from
    ensures SortedUpTo(Pruned(d, at, window), now)
    ensures CountSince(Pruned(d, at, window), from) == CountSince(d, from)
    ensures forall i :: 0 <= i < |Pruned(d, at, window)| ==> Since(at, Pruned(d, at, window)[i]) <= window
  {
    if d != [] && Since(at, d[0]) > window {
      PrunedKeeps(d[1..], at, window, from, now);
    }
  }

  lemma {:induction false} AfterIsSorted(events: seq<Event>, window: nat, now: int)
    requires Monotone(events, now)
    ensures SortedUpTo(After(events, window), now)
  {
    if events != [] {
      var init, last := events[..|events| - 1], events[|events| - 1];
      AfterIsSorted(init, window, last.at);
      if last.Query? { PrunedKeeps(After(init, window), last.at, window, last.at - window, last.at); }
    }
  }

  /** The elements of the deque inside a window that ends no earlier than the run. */
  lemma {:induction false} CountBounds(events: seq<Event>, window: nat, now: int)
    requires Monotone(events, now)
    ensures FailuresSince(events, now - window) - SuccessesSince(events, now - window)
         <= CountSince(After(events, window), now - window) <= FailuresSince(events, now - window)
  {
    if events != [] {
      var init, last := events[..|events| - 1], events[|events| - 1];
      var d := After(init, window);
      CountBounds(init, window, now);
      AfterIsSorted(init, window, last.at);
      match last
      case Failure(at) => CountSinceSnoc(d, at, now - window);
      case Success(_) =>
      case Query(at) => PrunedKeeps(d, at, window, now - window, last.at);
    }
  }

  /**
   * Sliding-window bounds: after any run of failures, successes and queries on a monotone clock, the deque is
   * sorted and the number of recent failures lies between F - S and F, where F and S count the failures and
   * successes of the last window.
   */
  lemma WindowBounds(events: seq<Event>, window: nat, now: int)
    requires Monotone(events, now)
    ensures SortedUpTo(After(events, window), now)
    ensures FailuresSince(events, now - window) - SuccessesSince(events, now - window)
         <= |Pruned(After(events, window), now, window)| <= FailuresSince(events, now - window)
  {
    var d := After(events, window);
    AfterIsSorted(events, window, now);
    CountBounds(events, window, now);
    PrunedKeeps(d, now, window, now - window, now);
    CountSinceAll(Pruned(d, now, window), now - window);
  }

  // ----- Selecting an upstream -----

  datatype Selection = Primary | Fallback(index: nat) | AllDegraded

  /** The upstream the traffic goes to. */
  function IndexOf(s: Selection): nat { if s.Fallback? then s.index else 0 }

  /** The first of the upstreams from `i` on with fewer recent failures than the threshold. */
  function Choose(deques: seq<Failures>, times: seq<int>, threshold: nat, window: nat, i: nat): Selection
    requires |times| == |deques| && i <= |deques|
    decreases |deques| - i
  {
    if i == |deques| then AllDegraded
    else if |Pruned(deques[i], times[i], window)| < threshold then (if i == 0 then Primary else Fallback(i))
    else Choose(deques, times, threshold, window, i + 1)
  }

  lemma {:induction false} PrunedTwice(d: Failures, early: int, late: int, window: nat)
    requires early <= late
    ensures Pruned(Pruned(d, early, window), late, window) == Pruned(d, late, window)
  {
    if d != [] && Since(early, d[0]) > window { PrunedTwice(d[1..], early, late, window); }
  }

  function Snapshot(health: seq<Health>): (r: seq<Failures>)
    reads health
    ensures |r| == |health| && forall i :: 0 <= i < |health| ==> r[i] == health[i].failures
  {
    if health == [] then [] else [health[0].failures] + Snapshot(health[1..])
  }

  /**
   * `times[i]` is the instant at which upstream `i` is examined, should it be. Upstreams may share a health
   * object. Examining them changes no count that is taken later.
   */
  method Select(health: seq<Health>, times: seq<int>, threshold: nat, window: nat) returns (s: Selection)
    requires |times| == |health|
    requires forall i, j :: 0 <= i < j < |times| ==> times[i] <= times[j]
    modifies health
    ensures s == Choose(old(Snapshot(health)), times, threshold, window, 0)
    ensures forall i, now :: 0 <= i < |health| && (forall k :: 0 <= k < |times| ==> times[k] <= now) ==>
              Pruned(health[i].failures, now, window) == Pruned(old(health[i].failures), now, window)
  {
    ghost var deques := Snapshot(health);
    for i := 0 to |health|
      invariant Choose(deques, times, threshold, window, 0) == Choose(deques, times, threshold, window, i)
      invariant forall k, now :: 0 <= k < |health| && (i > 0 ==> times[i - 1] <= now) ==>
                  Pruned(health[k].failures, now, window) == Pruned(deques[k], now, window)
    {
      label examine:
      var degraded := health[i].IsDegraded(threshold, window, times[i]);
      assert health[i].failures == Pruned(deques[i], times[i], window);
      forall k, now | 0 <= k < |health| && times[i] <= now
        ensures Pruned(health[k].failures, now, window) == Pruned(deques[k], now, window)
      {
        assert Pruned(old@examine(health[k].failures), now, window) == Pruned(deques[k], now, window);
        if health[k] == health[i] {
          PrunedTwice(old@examine(health[k].failures), times[i], now, window);
        }
      }
      if !degraded {
        return if i == 0 then Primary else Fallback(i);
      }
    }
    return AllDegraded;
  }

  /** Choosing, both ways: an upstream is chosen exactly when it is healthy and no earlier one is. */
  lemma {:induction false} ChooseIs(deques: seq<Failures>, times: seq<int>, threshold: nat, window: nat, i: nat, k: nat)
    requires |times| == |deques| && i <= k < |deques|
    requires forall j :: i <= j < k ==> |Pruned(deques[j], times[j], window)| >= threshold
    requires |Pruned(deques[k], times[k], window)| < threshold
    ensures Choose(deques, times, threshold, window, i) == if k == 0 then Primary else Fallback(k)
    ensures IndexOf(Choose(deques, times, threshold, window, i)) == k
    decreases k - i
  {
    if i < k { ChooseIs(deques, times, threshold, window, i + 1, k); }
  }

  lemma {:induction false} ChooseNone(deques: seq<Failures>, times: seq<int>, threshold: nat, window: nat, i: nat)
    requires |times| == |deques| && i <= |deques|
    ensures Choose(deques, times, threshold, window, i).AllDegraded?
       <==> forall j :: i <= j < |deques| ==> |Pruned(deques[j], times[j], window)| >= threshold
    ensures Choose(deques, times, threshold, window, i).AllDegraded? ==> IndexOf(Choose(deques, times, threshold, window, i)) == 0
    decreases |deques| - i
  {
    if i < |deques| { ChooseNone(deques, times, threshold, window, i + 1); }
  }

  /** The deques of upstreams with the given pasts. */
  function Deques(pasts: seq<seq<Event>>, window: nat): (r: seq<Failures>)
    ensures |r| == |pasts| && forall i :: 0 <= i < |pasts| ==> r[i] == After(pasts[i], window)
  {
    seq(|pasts|, i requires 0 <= i < |pasts| => After(pasts[i], window))
  }

  predicate Examined(pasts: seq<seq<Event>>, times: seq<int>) {
    |times| == |pasts| && forall i :: 0 <= i < |pasts| ==> Monotone(pasts[i], times[i])
  }

  /**
   * Degradation: traffic goes to upstream `k` if each earlier upstream had, in the last window, at least
   * `threshold` more failures than successes, and `k` itself fewer than `threshold` failures.
   */
  lemma FailoverReaches(pasts: seq<seq<Event>>, times: seq<int>, threshold: nat, window: nat, k: nat)
    requires Examined(pasts, times) && k < |pasts|
    requires forall j :: 0 <= j < k ==>
               FailuresSince(pasts[j], times[j] - window) - SuccessesSince(pasts[j], times[j] - window) >= threshold
    requires FailuresSince(pasts[k], times[k] - window) < threshold
    ensures Choose(Deques(pasts, window), times, threshold, window, 0) == if k == 0 then Primary else Fallback(k)
  {
    forall j | 0 <= j < k ensures |Pruned(Deques(pasts, window)[j], times[j], window)| >= threshold {
      WindowBounds(pasts[j], window, times[j]);
    }
    WindowBounds(pasts[k], window, times[k]);
    ChooseIs(Deques(pasts, window), times, threshold, window, 0, k);
  }

  /** Recovery: a primary without failures in the last window is chosen again, unless the threshold is 0. */
  lemma PrimaryRecovers(pasts: seq<seq<Event>>, times: seq<int>, threshold: nat, window: nat)
    requires Examined(pasts, times) && pasts != [] && threshold > 0
    requires FailuresSince(pasts[0], times[0] - window) == 0
    ensures Choose(Deques(pasts, window), times, threshold, window, 0) == Primary
  {
    FailoverReaches(pasts, times, threshold, window, 0);
  }

  /** With threshold 0 every upstream counts as degraded, whatever its past. */
  lemma ZeroThresholdDegradesAll(deques: seq<Failures>, times: seq<int>, window: nat)
    requires |times| == |deques|
    ensures Choose(deques, times, 0, window, 0) == AllDegraded
  {
    ChooseNone(deques, times, 0, window, 0);
  }
}
