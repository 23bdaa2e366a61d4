/** The in-memory sliding-window rate limiter of the client API routes
    (client/src/utils/rate-limit.ts): at most `Limit` accepted requests per
    IP address in any window of `Window` milliseconds. */
module RateLimit {
  import opened Common

  const Limit := 10
  const Window := 60000

  /** `timestamps.filter(t => now - t < WINDOW)`: the timestamps still
      inside the window ending at `now`, in order. */
  function Recent(ts: seq<int>, now: int): (r: seq<int>)
    ensures |r| <= |ts|
    ensures forall i :: 0 <= i < |r| ==> r[i] in ts && now - r[i] < Window
    ensures forall i :: 0 <= i < |ts| && now - ts[i] < Window ==> ts[i] in r
  {
    if ts == [] then []
    else
      var r := Recent(ts[..|ts| - 1], now);
      assert forall i :: 0 <= i < |ts| - 1 ==> ts[i] == ts[..|ts| - 1][i];
      if now - ts[|ts| - 1] < Window then r + [ts[|ts| - 1]] else r
  }

  /** `Recent` is exactly the filter by the window test: every timestamp
      inside the window is kept, in order, with its multiplicity. */
  lemma {:induction false} RecentIsFilter(ts: seq<int>, now: int)
    ensures Recent(ts, now) == Filter(ts, (t: int) => now - t < Window)
  {
    if ts != [] {
      var init := ts[..|ts| - 1];
      RecentIsFilter(init, now);
      assert ts == init + [ts[|ts| - 1]];
      FilterAppend(init, [ts[|ts| - 1]], (t: int) => now - t < Window);
    }
  }

  /** `ipCount.get(ip) || []`. */
  function Stored(store: map<string, seq<int>>, ip: string): seq<int>
  {
    if ip in store then store[ip] else []
  }

  /** One call of `checkRateLimit(ip)` at time `now`: whether the request is
      allowed, and the new table. */
  function Check(store: map<string, seq<int>>, ip: string, now: int): (bool, map<string, seq<int>>)
  {
    var recent := Recent(Stored(store, ip), now);
    if |recent| >= Limit then (false, store)
    else (true, store[ip := recent + [now]])
  }

  /** The module-level `ipCount` map, as an object. */
  class RateLimiter {
    var ipCount: map<string, seq<int>>

    constructor ()
      ensures ipCount == map[]
    {
      ipCount := map[];
    }

    /** `checkRateLimit`, with the clock reading `Date.now()` passed in. */
    method CheckRateLimit(ip: string, now: int) returns (ok: bool)
      modifies this
      ensures (ok, ipCount) == Check(old(ipCount), ip, now)
    {
      var timestamps := if ip in ipCount then ipCount[ip] else [];
      var recent := Recent(timestamps, now);
      if |recent| >= Limit {
        return false;
      }
      recent := recent + [now];
      ipCount := ipCount[ip := recent];
      return true;
    }
  }

  /** A request is allowed exactly when fewer than `Limit` of the IP's
      stored timestamps are inside the window; an allowed request stores
      the pruned list with `now` appended, a refused one changes nothing,
      and no other IP's list changes either way. */
  lemma CheckFacts(store: map<string, seq<int>>, ip: string, now: int)
    ensures var (ok, next) := Check(store, ip, now);
      (ok <==> |Recent(Stored(store, ip), now)| < Limit) &&
      (ok ==> Stored(next, ip) == Recent(Stored(store, ip), now) + [now] && |Stored(next, ip)| <= Limit) &&
      (!ok ==> next == store) &&
      (forall other :: other != ip ==> Stored(next, other) == Stored(store, other))
  {
  }

  /** Every stored list has at most `Limit` timestamps. */
  predicate Bounded(store: map<string, seq<int>>)
  {
    forall ip :: ip in store ==> |store[ip]| <= Limit
  }

  /** The table never grows a list beyond `Limit`. */
  lemma CheckKeepsBounded(store: map<string, seq<int>>, ip: string, now: int)
    requires Bounded(store)
    ensures Bounded(Check(store, ip, now).1)
  {
    var next := Check(store, ip, now).1;
    forall k | k in next
      ensures |next[k]| <= Limit
    {
      if k != ip {
        assert next[k] == store[k];
      }
    }
  }

  // ----- a sequence of calls -----

  predicate NonDecreasing(ts: seq<int>)
  {
    forall i, j :: 0 <= i < j < |ts| ==> ts[i] <= ts[j]
  }

  /** Calls `checkRateLimit(ip, t)` for every `(ip, t)` in order, starting
      from `store`: the final table and the calls that were allowed. */
  function Run(store: map<string, seq<int>>, calls: seq<(string, int)>): (map<string, seq<int>>, seq<(string, int)>)
  {
    if calls == [] then (store, [])
    else
      var (s, acc) := Run(store, calls[..|calls| - 1]);
      var (ok, next) := Check(s, calls[|calls| - 1].0, calls[|calls| - 1].1);
      (next, if ok then acc + [calls[|calls| - 1]] else acc)
  }

  /** The times of the calls made for `ip`. */
  function TimesOf(calls: seq<(string, int)>, ip: string): (r: seq<int>)
    ensures |r| <= |calls|
  {
    if calls == [] then []
    else TimesOf(calls[..|calls| - 1], ip) + (if calls[|calls| - 1].0 == ip then [calls[|calls| - 1].1] else [])
  }

  /** The calls of a single IP address from an empty table: its stored list
      and the times it was allowed. */
  function RunIp(times: seq<int>): (seq<int>, seq<int>)
  {
    if times == [] then ([], [])
    else
      var (s, acc) := RunIp(times[..|times| - 1]);
      var now := times[|times| - 1];
      var recent := Recent(s, now);
      if |recent| >= Limit then (s, acc) else (recent + [now], acc + [now])
  }

  /** The table of a run from empty, seen from one IP address, is that
      address's own run: requests of other addresses never affect it. */
  lemma {:induction false} RunProjects(calls: seq<(string, int)>, ip: string)
    ensures Stored(Run(map[], calls).0, ip) == RunIp(TimesOf(calls, ip)).0
    ensures TimesOf(Run(map[], calls).1, ip) == RunIp(TimesOf(calls, ip)).1
  {
    if calls != [] {
      var init := calls[..|calls| - 1];
      var c := calls[|calls| - 1];
      RunProjects(init, ip);
      var (s, acc) := Run(map[], init);
      var (ok, next) := Check(s, c.0, c.1);
      assert Run(map[], calls) == (next, if ok then acc + [c] else acc);
      CheckFacts(s, c.0, c.1);
      if c.0 == ip {
        assert TimesOf(calls, ip) == TimesOf(init, ip) + [c.1];
        assert TimesOf(calls, ip)[..|TimesOf(calls, ip)| - 1] == TimesOf(init, ip);
      } else {
        assert TimesOf(calls, ip) == TimesOf(init, ip);
      }
      if ok {
        var acc' := acc + [c];
        assert acc'[..|acc'| - 1] == acc;
      }
    }
  }

  lemma {:induction false} RecentTwice(ts: seq<int>, a: int, b: int)
    requires a <= b
    ensures Recent(Recent(ts, a), b) == Recent(ts, b)
  {
    if ts != [] {
      var init := ts[..|ts| - 1];
      RecentTwice(init, a, b);
      var x := ts[|ts| - 1];
      if a - x < Window {
        var r := Recent(init, a) + [x];
        assert r[..|r| - 1] == Recent(init, a);
      }
    }
  }

  lemma RecentAppendNow(ts: seq<int>, now: int)
    ensures Recent(ts + [now], now) == Recent(ts, now) + [now]
  {
    assert (ts + [now])[..|ts|] == ts;
  }

  /** The stored list is the allowed times inside the window of the last
      allowed request. */
  predicate Tracks(s: seq<int>, acc: seq<int>)
  {
    if acc == [] then s == [] else s == Recent(acc, acc[|acc| - 1])
  }

  lemma {:induction false} RunIpTracks(times: seq<int>)
    requires NonDecreasing(times)
    ensures Tracks(RunIp(times).0, RunIp(times).1)
    ensures NonDecreasing(RunIp(times).1)
    ensures forall k :: 0 <= k < |RunIp(times).1| ==> RunIp(times).1[k] in times
  {
    if times != [] {
      var init := times[..|times| - 1];
      assert NonDecreasing(init);
      RunIpTracks(init);
      var (s, acc) := RunIp(init);
      var now := times[|times| - 1];
      var r := RunIp(times);
      forall k | 0 <= k < |acc|
        ensures acc[k] <= now && acc[k] in times
      {
        var i :| 0 <= i < |init| && init[i] == acc[k];
        assert times[i] == acc[k];
      }
      var recent := Recent(s, now);
      if |recent| < Limit {
        assert r == (recent + [now], acc + [now]);
        TracksStep(s, acc, now);
      } else {
        assert r == (s, acc);
      }
    }
  }

  /** An allowed request at `now`, no earlier than every allowed time,
      keeps the stored list tracking the allowed times. */
  lemma TracksStep(s: seq<int>, acc: seq<int>, now: int)
    requires Tracks(s, acc) && NonDecreasing(acc)
    requires forall k :: 0 <= k < |acc| ==> acc[k] <= now
    ensures Tracks(Recent(s, now) + [now], acc + [now])
    ensures NonDecreasing(acc + [now])
  {
    if acc != [] {
      RecentTwice(acc, acc[|acc| - 1], now);
    }
    RecentAppendNow(acc, now);
    var acc' := acc + [now];
    assert acc'[|acc'| - 1] == now;
  }

  /** If the allowed times from index `i` on are all inside the window
      ending at `now`, at least that many survive the pruning. */
  lemma {:induction false} RecentKeepsTail(ts: seq<int>, now: int, i: nat)
    requires i <= |ts|
    requires forall k :: i <= k < |ts| ==> now - ts[k] < Window
    ensures |Recent(ts, now)| >= |ts| - i
  {
    if i < |ts| {
      var init := ts[..|ts| - 1];
      RecentKeepsTail(init, now, i);
    }
  }

  /** A request allowed at `now`, after the allowed times `acc`, is at
      least `Window` after the one `Limit` places before it. */
  lemma AllowedFar(acc: seq<int>, now: int)
    requires NonDecreasing(acc)
    requires |Recent(acc, now)| < Limit
    ensures forall i :: 0 <= i && i + Limit <= |acc| ==> now - acc[i] >= Window
  {
    forall i | 0 <= i && i + Limit <= |acc|
      ensures now - acc[i] >= Window
    {
      if now - acc[i] < Window {
        RecentKeepsTail(acc, now, i);
      }
    }
  }

  /** Every time allowed before the last call is no later than it. */
  lemma AllowedBefore(times: seq<int>)
    requires NonDecreasing(times) && |times| > 0
    ensures var acc := RunIp(times[..|times| - 1]).1;
      acc != [] ==> acc[|acc| - 1] <= times[|times| - 1]
  {
    var init := times[..|times| - 1];
    assert NonDecreasing(init);
    RunIpTracks(init);
    var acc := RunIp(init).1;
    if acc != [] {
      assert acc[|acc| - 1] in init;
    }
  }

  /** Any `Limit + 1` of the times `acc` span at least `Window`. */
  predicate Spread(acc: seq<int>)
  {
    forall i, j :: 0 <= i && i + Limit <= j < |acc| ==> acc[j] - acc[i] >= Window
  }

  lemma SpreadStep(acc: seq<int>, now: int)
    requires Spread(acc)
    requires forall i :: 0 <= i && i + Limit <= |acc| ==> now - acc[i] >= Window
    ensures Spread(acc + [now])
  {
    var acc' := acc + [now];
    forall i, j | 0 <= i && i + Limit <= j < |acc'|
      ensures acc'[j] - acc'[i] >= Window
    {
      if j < |acc| {
        assert acc'[j] == acc[j] && acc'[i] == acc[i];
      }
    }
  }

  /** Allowing a request keeps the allowed times spread out. */
  lemma WindowStep(s: seq<int>, acc: seq<int>, now: int)
    requires Tracks(s, acc) && NonDecreasing(acc) && Spread(acc)
    requires acc != [] ==> acc[|acc| - 1] <= now
    requires |Recent(s, now)| < Limit
    ensures Spread(acc + [now])
  {
    if acc != [] {
      RecentTwice(acc, acc[|acc| - 1], now);
    }
    AllowedFar(acc, now);
    SpreadStep(acc, now);
  }

  /** For one IP address whose calls come with non-decreasing times, any
      `Limit + 1` allowed requests span at least `Window` milliseconds: no
      window shorter than a minute holds more than ten allowed requests. */
  lemma {:induction false} RunIpWindow(times: seq<int>)
    requires NonDecreasing(times)
    ensures Spread(RunIp(times).1)
  {
    if times != [] {
      var init := times[..|times| - 1];
      assert NonDecreasing(init);
      RunIpWindow(init);
      RunIpTracks(init);
      var (s, acc) := RunIp(init);
      var now := times[|times| - 1];
      AllowedBefore(times);
      if |Recent(s, now)| < Limit {
        WindowStep(s, acc, now);
      }
    }
  }

  /** The sliding-window guarantee for a whole run from an empty table:
      for any IP address whose own calls come with non-decreasing times,
      any `Limit + 1` of its allowed requests span at least `Window`
      milliseconds, whatever the other addresses do. */
  lemma AtMostLimitPerWindow(calls: seq<(string, int)>, ip: string)
    requires NonDecreasing(TimesOf(calls, ip))
    ensures Spread(TimesOf(Run(map[], calls).1, ip))
  {
    RunProjects(calls, ip);
    RunIpWindow(TimesOf(calls, ip));
  }
}
