/**
 The process-wide limiter of download requests: a queue of recent admissions that is pruned
 lazily, proved against the whole history of admissions.
 */
module RateLimiter {

  import opened Sorting

  /** How many of these times lie in the window (now - window, now]. */
  function InWindow(times: seq<int>, now: int, window: int): nat {
    if times == [] then 0
    else InWindow(times[..|times| - 1], now, window) +
         if now - window < times[|times| - 1] <= now then 1 else 0
  }

  /** Times that are all too old count for nothing, and times that are all recent count in full. */
  lemma {:induction false} InWindowSplit(times: seq<int>, k: nat, now: int, window: int)
    requires k <= |times|
    requires forall i | 0 <= i < k :: times[i] <= now - window
    requires forall i | k <= i < |times| :: now - window < times[i] <= now
    ensures InWindow(times, now, window) == |times| - k
  {
    if times != [] {
      var front := times[..|times| - 1];
      if k == |times| {
        InWindowSplit(front, k - 1, now, window);
      } else {
        InWindowSplit(front, k, now, window);
      }
    }
  }

  /** No window of the given length, wherever it ends, holds more than the limit. */
  ghost predicate Throttled(times: seq<int>, window: int, limit: nat) {
    forall now: int :: InWindow(times, now, window) <= limit
  }

  /** An admission and the one a full limit earlier are at least a window apart. */
  ghost predicate Spaced(times: seq<int>, window: int, limit: nat) {
    forall i | 0 <= i && i + limit < |times| :: times[i] + window <= times[i + limit]
  }

  lemma {:induction false} SpacedThrottles(times: seq<int>, now: int, window: int, limit: nat)
    requires Ascending(times) && Spaced(times, window, limit)
    ensures InWindow(times, now, window) <= limit
  {
    if times != [] {
      var n := |times| - 1;
      if now < times[n] {
        SpacedThrottles(times[..n], now, window, limit);
      } else {
        CountFromEnd(times, now, window);
        if limit <= n {
          assert times[n - limit] + window <= times[n - limit + limit];
        }
      }
    }
  }

  /** When the last time is not in the future, the window holds a suffix. */
  lemma {:induction false} CountFromEnd(times: seq<int>, now: int, window: int)
    requires Ascending(times) && (times != [] ==> times[|times| - 1] <= now)
    ensures InWindow(times, now, window) <= |times|
    ensures var c := InWindow(times, now, window);
            && (forall i | 0 <= i < |times| - c :: times[i] <= now - window)
            && (forall i | |times| - c <= i < |times| :: now - window < times[i] <= now)
  {
    var k := 0;
    while k < |times| && times[k] <= now - window
      invariant k <= |times| && forall i | 0 <= i < k :: times[i] <= now - window
    {
      k := k + 1;
    }
    InWindowSplit(times, k, now, window);
  }

  lemma SpacedIsThrottled(times: seq<int>, window: int, limit: nat)
    requires Ascending(times)
    ensures Spaced(times, window, limit) ==> Throttled(times, window, limit)
  {
    if Spaced(times, window, limit) {
      forall now: int ensures InWindow(times, now, window) <= limit {
        SpacedThrottles(times, now, window, limit);
      }
    }
  }

  /** The queue is what is left of the history once admissions that are too old are dropped. */
  ghost predicate Remembers(admitted: seq<int>, times: seq<int>, latest: int, window: int) {
    && (forall i | 0 <= i < |admitted| :: admitted[i] <= latest)
    && |times| <= |admitted| && times == admitted[|admitted| - |times|..]
    && (forall i | 0 <= i < |admitted| - |times| :: admitted[i] <= latest - window)
  }

  lemma DropsOldest(admitted: seq<int>, times: seq<int>, latest: int, window: int)
    requires Remembers(admitted, times, latest, window) && times != [] && times[0] <= latest - window
    ensures Remembers(admitted, times[1..], latest, window)
  {
    var k := |admitted| - |times|;
    assert admitted[k] == times[0];
    assert times[1..] == admitted[k + 1..];
  }

  lemma CountsRecent(admitted: seq<int>, times: seq<int>, latest: int, window: int)
    requires Ascending(admitted) && Remembers(admitted, times, latest, window)
    requires times != [] ==> latest - window < times[0]
    ensures InWindow(admitted, latest, window) == |times|
  {
    var k := |admitted| - |times|;
    forall i | k <= i < |admitted| ensures latest - window < admitted[i] {
      assert times[0] == admitted[k] <= admitted[i];
    }
    InWindowSplit(admitted, k, latest, window);
  }

  lemma Admits(admitted: seq<int>, times: seq<int>, latest: int, window: int, limit: nat)
    requires Ascending(admitted) && Spaced(admitted, window, limit) && Remembers(admitted, times, latest, window)
    requires |times| < limit
    ensures Ascending(admitted + [latest]) && Spaced(admitted + [latest], window, limit)
    ensures Remembers(admitted + [latest], times + [latest], latest, window)
  {
    var next := admitted + [latest];
    forall i | 0 <= i && i + limit < |next| ensures next[i] + window <= next[i + limit] {
      if i + limit < |admitted| {
        assert admitted[i] + window <= admitted[i + limit];
      }
    }
    assert times + [latest] == next[|next| - |times| - 1..];
  }

  class SlidingWindowRateLimiter {
    const limit: nat
    const window: int
    var times: seq<int>
    ghost var admitted: seq<int>   // every admission so far
    ghost var latest: int          // the latest clock reading

    ghost predicate Valid()
      reads this
    {
      Ascending(admitted) && Spaced(admitted, window, limit) && Remembers(admitted, times, latest, window)
    }

    constructor (limit: nat, window: int, ghost clock: int)
      ensures Valid() && admitted == [] && this.limit == limit && this.window == window && latest == clock
    {
      this.limit := limit;
      this.window := window;
      times := [];
      admitted := [];
      latest := clock;
    }

    /**
     A request is turned away exactly when the last window already holds the limit of all
     admissions ever made, pruned from the queue or not.
     */
    method Allow(now: int) returns (ok: bool)
      requires Valid() && latest <= now
      modifies this
      ensures Valid() && latest == now
      ensures ok <==> InWindow(old(admitted), now, window) < limit
      ensures admitted == if ok then old(admitted) + [now] else old(admitted)
      ensures Throttled(admitted, window, limit)
    {
      assert Remembers(admitted, times, now, window);
      latest := now;
      while times != [] && times[0] <= now - window
        invariant latest == now && admitted == old(admitted)
        invariant Remembers(admitted, times, now, window)
        decreases |times|
      {
        DropsOldest(admitted, times, now, window);
        times := times[1..];
      }
      CountsRecent(admitted, times, now, window);
      if |times| >= limit {
        ok := false;
      } else {
        Admits(admitted, times, now, window, limit);
        times := times + [now];
        admitted := admitted + [now];
        ok := true;
      }
      SpacedIsThrottled(admitted, window, limit);
    }
  }
}
