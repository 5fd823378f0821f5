/** The sliding-window rate limiter (rate_limiter.py): per client, the timestamps of the
    calls it let through that are still inside the window. The clock read becomes the
    `now` parameter; timestamps are reals, as `time.time()` is a float. */
module RateLimiting {

  /** `n` copies of `x`. */
  function Repeat<T>(x: T, n: nat): (r: seq<T>)
    ensures |r| == n
    ensures forall i :: 0 <= i < n ==> r[i] == x
  {
    if n == 0 then [] else Repeat(x, n - 1) + [x]
  }

  /** The list comprehension of `is_allowed`: the timestamps `t` with `now - t < window`,
      in their original order. */
  function Pruned(ts: seq<real>, now: real, window: int): (r: seq<real>)
    ensures |r| <= |ts|
    ensures forall i :: 0 <= i < |r| ==> now - r[i] < window as real
    ensures forall t :: t in r ==> t in ts
    ensures forall t :: t in ts && now - t < window as real ==> t in r
    decreases |ts|
  {
    if ts == [] then []
    else
      var rest := Pruned(ts[..|ts| - 1], now, window);
      var last := ts[|ts| - 1];
      assert forall t :: t in ts <==> t in ts[..|ts| - 1] || t == last;
      if now - last < window as real then rest + [last] else rest
  }

  /** Pruning distributes over concatenation: every timestamp is kept or dropped on its own,
      and the kept ones stay in their original order. */
  lemma {:induction false} PrunedAppend(a: seq<real>, b: seq<real>, now: real, window: int)
    ensures Pruned(a + b, now, window) == Pruned(a, now, window) + Pruned(b, now, window)
    decreases |b|
  {
    if b != [] {
      var b' := b[..|b| - 1];
      assert (a + b)[..|a + b| - 1] == a + b';
      PrunedAppend(a, b', now, window);
    } else {
      assert a + b == a;
    }
  }

  /** Pruning a second time at the same instant removes nothing more. */
  lemma {:induction false} PrunedIdempotent(ts: seq<real>, now: real, window: int)
    ensures Pruned(Pruned(ts, now, window), now, window) == Pruned(ts, now, window)
    decreases |ts|
  {
    if ts != [] {
      var init := ts[..|ts| - 1];
      var last := ts[|ts| - 1];
      PrunedIdempotent(init, now, window);
      if now - last < window as real {
        PrunedAppend(Pruned(init, now, window), [last], now, window);
        assert Pruned([last], now, window) == [last] by {
          assert [last][..0] == [];
        }
      }
    }
  }

  /** Whether a call at `now` is let through given the client's log: the pruned log must
      still be shorter than the limit. */
  predicate Admits(ts: seq<real>, now: real, requests: int, window: int)
  {
    |Pruned(ts, now, window)| < requests
  }

  class RateLimiter {
    const requests: int
    const window: int
    /** `requests_log`, a `defaultdict(list)`: a missing client reads as the empty log. */
    var log: map<string, seq<real>>

    /** The most timestamps one client's log can hold. */
    function Capacity(): nat
    {
      if requests < 0 then 0 else requests
    }

    /** No client's log is ever longer than the limit. */
    ghost predicate Valid()
      reads this
    {
      forall c :: c in log ==> |log[c]| <= Capacity()
    }

    /** `requests_log[client]`, with the default for a client never seen. */
    function Log(client: string): seq<real>
      reads this
    {
      if client in log then log[client] else []
    }

    constructor (requests: int, window: int)
      ensures this.requests == requests && this.window == window
      ensures log == map[] && Valid()
    {
      this.requests := requests;
      this.window := window;
      log := map[];
    }

    /** `is_allowed(client, now)`: prunes the client's log to the window, refuses when the
        pruned log already holds `requests` entries, and otherwise appends `now`. */
    method IsAllowed(client: string, now: real) returns (allowed: bool)
      requires Valid()
      modifies this
      ensures Valid()
      ensures allowed == Admits(old(Log(client)), now, requests, window)
      ensures log == old(log)[client :=
        if allowed then Pruned(old(Log(client)), now, window) + [now]
        else Pruned(old(Log(client)), now, window)]
      ensures forall c :: c != client ==> Log(c) == old(Log(c))
      ensures |Log(client)| <= Capacity()
      ensures forall i :: 0 <= i < |Log(client)| - (if allowed then 1 else 0) ==>
        now - Log(client)[i] < window as real
    {
      var current := Log(client);
      var kept: seq<real> := [];
      var i := 0;
      while i < |current|
        invariant 0 <= i <= |current|
        invariant kept == Pruned(current[..i], now, window)
      {
        if now - current[i] < window as real {
          kept := kept + [current[i]];
        }
        i := i + 1;
        assert current[..i][..i - 1] == current[..i - 1];
      }
      assert current[..i] == current;
      log := log[client := kept];
      if |kept| >= requests {
        return false;
      }
      log := log[client := kept + [now]];
      allowed := true;
    }
  }

  /** Timestamps all equal to `now` stay in the window when the window is positive. */
  lemma {:induction false} SameInstantKept(now: real, k: nat, window: int)
    requires window > 0
    ensures Pruned(Repeat(now, k), now, window) == Repeat(now, k)
  {
    if k > 0 {
      var s := Repeat(now, k);
      assert s[..k - 1] == Repeat(now, k - 1);
      SameInstantKept(now, k - 1, window);
    }
  }

  /** A log whose every timestamp is at least `window` old prunes to nothing. */
  lemma AllExpiredPruned(ts: seq<real>, now: real, window: int)
    requires forall i :: 0 <= i < |ts| ==> now - ts[i] >= window as real
    ensures Pruned(ts, now, window) == []
  {
  }

  /** Once every logged call is at least `window` old, the next call is let through
      (given a positive limit). */
  lemma AdmitsOnceWindowPassed(ts: seq<real>, now: real, requests: int, window: int)
    requires requests > 0
    requires forall i :: 0 <= i < |ts| ==> now - ts[i] >= window as real
    ensures Admits(ts, now, requests, window)
  {
    AllExpiredPruned(ts, now, window);
  }

  /** A fresh client calling `requests + 1` times at one instant with a positive window:
      the first `requests` calls pass and the next is refused. */
  method SameInstantBurst(requests: nat, window: int, client: string, now: real) returns (results: seq<bool>)
    requires window > 0
    ensures results == Repeat(true, requests) + [false]
  {
    var limiter := new RateLimiter(requests, window);
    results := [];
    var i := 0;
    while i < requests
      invariant 0 <= i <= requests
      invariant limiter.Valid() && limiter.requests == requests && limiter.window == window
      invariant limiter.Log(client) == Repeat(now, i)
      invariant results == Repeat(true, i)
    {
      SameInstantKept(now, i, window);
      var ok := limiter.IsAllowed(client, now);
      assert ok && limiter.Log(client) == Repeat(now, i) + [now];
      results := results + [ok];
      i := i + 1;
    }
    SameInstantKept(now, requests, window);
    var last := limiter.IsAllowed(client, now);
    assert !last;
    results := results + [last];
  }

  /** With a window of zero or less every timestamp has expired as soon as it is logged, so
      the limit never fills: each of `n` calls at one instant passes iff the limit is positive. */
  method ExpiredWindowBurst(requests: int, window: int, client: string, now: real, n: nat) returns (results: seq<bool>)
    requires window <= 0
    ensures results == Repeat(requests > 0, n)
  {
    var limiter := new RateLimiter(requests, window);
    results := [];
    var i := 0;
    while i < n
      invariant 0 <= i <= n
      invariant limiter.Valid() && limiter.requests == requests && limiter.window == window
      invariant forall j :: 0 <= j < |limiter.Log(client)| ==> limiter.Log(client)[j] == now
      invariant results == Repeat(requests > 0, i)
    {
      AllExpiredPruned(limiter.Log(client), now, window);
      var ok := limiter.IsAllowed(client, now);
      results := results + [ok];
      i := i + 1;
    }
  }

  /** Limit 2, window 1: two calls pass, the third at the same instant is refused, and a
      call 1.1 later passes again. */
  method ResetAfterWindowScenario(client: string, t0: real) returns (results: seq<bool>)
    ensures results == [true, true, false, true]
  {
    var limiter := new RateLimiter(2, 1);
    SameInstantKept(t0, 0, 1);
    var a := limiter.IsAllowed(client, t0);
    SameInstantKept(t0, 1, 1);
    var b := limiter.IsAllowed(client, t0);
    SameInstantKept(t0, 2, 1);
    var c := limiter.IsAllowed(client, t0);
    assert limiter.Log(client) == [t0, t0];
    AdmitsOnceWindowPassed(limiter.Log(client), t0 + 1.1, 2, 1);
    var d := limiter.IsAllowed(client, t0 + 1.1);
    results := [a, b, c, d];
  }

  /** Limit 1: a second call by one client is refused while another client still passes. */
  method DifferentClientsScenario(client1: string, client2: string, now: real) returns (first: bool, second: bool, other: bool)
    requires client1 != client2
    ensures first && !second && other
  {
    var limiter := new RateLimiter(1, 10);
    first := limiter.IsAllowed(client1, now);
    second := limiter.IsAllowed(client1, now);
    other := limiter.IsAllowed(client2, now);
  }
}
