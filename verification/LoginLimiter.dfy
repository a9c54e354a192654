// Slowing down guesses: a fixed-window counter, and a sliding count over the audit log when the
// counter cannot be reached (internal/platform/cache/redis.go, internal/services/auth_service.go).
module LoginLimiter {
  import opened Prelude

  // A counter that exists until `end`; the expiry is set only when the key has none.
  datatype Counter = Counter(count: nat, end: int)

  function Hit(c: Option<Counter>, now: int, window: int): Counter {
    if c.Some? && now < c.value.end then c.value.(count := c.value.count + 1) else Counter(1, now + window)
  }

  datatype Verdict = Allowed | Limited | Unknown

  class Limiter {
    var counters: map<string, Counter>
    var failures: seq<(string, int)> // the audit log's failed logins
    const limit: nat
    const window: int

    constructor (limit: nat, window: int)
      ensures this.limit == limit && this.window == window && counters == map[] && failures == []
    {
      this.limit, this.window := limit, window;
      counters, failures := map[], [];
    }

    function CounterOf(key: string): Option<Counter>
      reads this
    {
      if key in counters then Some(counters[key]) else None
    }

    method Increment(key: string, now: int) returns (count: nat)
      modifies this`counters
      ensures counters == old(counters)[key := Hit(old(CounterOf(key)), now, window)]
      ensures count == counters[key].count
      // A running window goes on; otherwise one begins now. Other keys are untouched.
      ensures key in counters && counters.Keys == old(counters).Keys + {key}
      ensures forall k :: k in old(counters) && k != key ==> counters[k] == old(counters)[k]
      ensures counters[key] ==
        if key in old(counters) && now < old(counters)[key].end then
          Counter(old(counters)[key].count + 1, old(counters)[key].end)
        else Counter(1, now + window)
    {
      if key in counters && counters[key].end <= now {
        counters := counters - {key}; // expired
      }
      var value := if key in counters then counters[key].count else 0;
      if key in counters {
        counters := counters[key := counters[key].(count := value + 1)];
      } else {
        counters := counters[key := Counter(value + 1, now + window)];
      }
      count := value + 1;
    }

    // Reports whether an identifier has exhausted its attempts; the counter first, the log second.
    method IsRateLimited(key: string, identifier: string, now: int, cacheUp: bool, logUp: bool) returns (v: Verdict)
      modifies this`counters
      ensures cacheUp ==>
        && counters == old(counters)[key := Hit(old(CounterOf(key)), now, window)]
        && v == (if counters[key].count > limit then Limited else Allowed)
      ensures !cacheUp ==> counters == old(counters)
      ensures !cacheUp && logUp ==>
        v == (if Recent(TimesOf(failures, identifier), now - window) >= limit then Limited else Allowed)
      ensures !cacheUp && !logUp ==> v == Unknown
      // The log's answer counts this identifier's failures strictly within the window.
      ensures !cacheUp && logUp ==>
        (v == Limited <==>
          |set i | 0 <= i < |failures| && failures[i].0 == identifier && failures[i].1 > now - window| >= limit)
      ensures cacheUp ==>
        (v == Allowed <==>
          (if key in old(counters) && now < old(counters)[key].end then old(counters)[key].count + 1 else 1) <= limit)
    {
      if cacheUp {
        var count := Increment(key, now);
        return if count > limit then Limited else Allowed;
      }
      if !logUp {
        return Unknown;
      }
      var count := CountRecentFailures(identifier, now - window);
      RecentCounts(failures, identifier, now - window);
      return if count >= limit then Limited else Allowed;
    }

    method CountRecentFailures(identifier: string, since: int) returns (count: nat)
      ensures count == Recent(TimesOf(failures, identifier), since)
    {
      count := 0;
      for i := 0 to |failures|
        invariant count == Recent(TimesOf(failures[..i], identifier), since)
      {
        assert failures[..i + 1][..i] == failures[..i];
        if failures[i].0 == identifier && failures[i].1 > since {
          count := count + 1;
        }
        ghost var times := TimesOf(failures[..i], identifier);
        assert (times + [failures[i].1])[..|times|] == times && times + [] == times;
      }
      assert failures[..|failures|] == failures;
    }

    method RecordFailure(identifier: string, now: int)
      modifies this`failures
      ensures failures == old(failures) + [(identifier, now)]
    {
      failures := failures + [(identifier, now)];
    }

    method ClearRateLimit(key: string)
      modifies this`counters
      ensures counters == old(counters) - {key}
    {
      counters := counters - {key};
    }
  }

  function TimesOf(log: seq<(string, int)>, identifier: string): seq<int> {
    if log == [] then []
    else
      var last := log[|log| - 1];
      TimesOf(log[..|log| - 1], identifier) + if last.0 == identifier then [last.1] else []
  }

  // How many entries fall strictly after `since`.
  function Recent(times: seq<int>, since: int): nat {
    if times == [] then 0
    else Recent(times[..|times| - 1], since) + if times[|times| - 1] > since then 1 else 0
  }

  lemma OneTimeMore(times: seq<int>, t: int, since: int)
    ensures Recent(times + [t], since) == Recent(times, since) + if t > since then 1 else 0
    ensures times + [] == times
  {
    assert (times + [t])[..|times|] == times;
  }

  lemma {:induction false} RecentCounts(log: seq<(string, int)>, identifier: string, since: int)
    ensures Recent(TimesOf(log, identifier), since) ==
      |set i | 0 <= i < |log| && log[i].0 == identifier && log[i].1 > since|
  {
    if log != [] {
      var n := |log| - 1;
      var front := log[..n];
      RecentCounts(front, identifier, since);
      var before := set i | 0 <= i < n && front[i].0 == identifier && front[i].1 > since;
      var after := set i | 0 <= i < |log| && log[i].0 == identifier && log[i].1 > since;
      assert after == before + if log[n].0 == identifier && log[n].1 > since then {n} else {};
      OneTimeMore(TimesOf(front, identifier), log[n].1, since);
    }
  }

  // ---- The fixed window ---------------------------------------------------------------------------
  // Attempts of one identifier, none of them successful, at these times.

  predicate InOrder(times: seq<int>) {
    forall i, j :: 0 <= i < j < |times| ==> times[i] <= times[j]
  }

  function After(times: seq<int>, window: int): Option<Counter> {
    if times == [] then None else Some(Hit(After(times[..|times| - 1], window), times[|times| - 1], window))
  }

  predicate Admitted(times: seq<int>, i: nat, window: int, limit: nat)
    requires i < |times|
  {
    Hit(After(times[..i], window), times[i], window).count <= limit
  }

  // How many of the attempts made from `from` to `from + window` were admitted.
  function AdmittedFrom(times: seq<int>, window: int, limit: nat, from: int): nat {
    if times == [] then 0
    else
      var n := |times| - 1;
      var count := Hit(After(times[..n], window), times[n], window).count;
      AdmittedFrom(times[..n], window, limit, from) +
      if count <= limit && from <= times[n] <= from + window then 1 else 0
  }

  function Min(a: nat, b: nat): nat {
    if a < b then a else b
  }

  // How far the count can have got, by where the current window started.
  predicate Budget(c: Counter, window: int, limit: nat, from: int, last: int, n: nat) {
    var start := c.end - window;
    && start <= last < c.end
    && (n > 0 ==> from <= last)
    && (start <= from ==> n <= Min(c.count, limit))
    && (from < start <= from + window ==> n <= limit + Min(c.count, limit))
    && n <= 2 * limit
  }

  lemma {:induction false} BudgetHolds(times: seq<int>, window: int, limit: nat, from: int)
    requires InOrder(times) && times != [] && window > 0
    ensures Budget(After(times, window).value, window, limit, from, times[|times| - 1],
        AdmittedFrom(times, window, limit, from))
  {
    var n := |times| - 1;
    var front, last := times[..n], times[n];
    var before, admitted := After(front, window), AdmittedFrom(front, window, limit, from);
    var hit := Hit(before, last, window);
    assert After(times, window) == Some(hit);
    assert AdmittedFrom(times, window, limit, from) ==
      admitted + if hit.count <= limit && from <= last <= from + window then 1 else 0;
    if n > 0 {
      BudgetHolds(front, window, limit, from);
      assert front[n - 1] == times[n - 1] <= last && before == Some(before.value);
      OneAttemptMore(before.value, window, limit, from, times[n - 1], last, admitted);
    } else {
      assert front == [] && hit == Counter(1, last + window);
    }
  }

  lemma OneAttemptMore(c: Counter, window: int, limit: nat, from: int, last: int, at: int, n: nat)
    requires Budget(c, window, limit, from, last, n) && last <= at && window > 0
    ensures
      var hit := Hit(Some(c), at, window);
      Budget(hit, window, limit, from, at, n + if hit.count <= limit && from <= at <= from + window then 1 else 0)
  {
  }

  // Any stretch one window long, both ends included, admits at most twice the limit.
  lemma AtMostTwiceTheLimit(times: seq<int>, window: int, limit: nat, from: int)
    requires InOrder(times) && window > 0
    ensures AdmittedFrom(times, window, limit, from) <= 2 * limit
  {
    if times != [] {
      BudgetHolds(times, window, limit, from);
    }
  }

  // And no better: a full window's attempts at its very start and as many the moment it ends
  // are all admitted, and lie within one such stretch.
  lemma TwiceTheLimitIsReached(window: int, limit: nat)
    requires window > 0
    ensures InOrder(Burst(window, limit, limit))
    ensures AdmittedFrom(Burst(window, limit, limit), window, limit, 0) == 2 * limit
  {
    SecondBurst(window, limit, limit);
  }

  function Burst(window: int, limit: nat, n: nat): seq<int> {
    seq(limit, _ => 0) + seq(n, _ => window)
  }

  lemma {:induction false} FirstBurst(window: int, limit: nat, n: nat)
    requires window > 0 && n <= limit
    ensures
      var times := seq(n, _ => 0);
      After(times, window) == (if n == 0 then None else Some(Counter(n, window)))
        && AdmittedFrom(times, window, limit, 0) == n
  {
    if n > 0 {
      FirstBurst(window, limit, n - 1);
      assert seq(n, _ => 0)[..n - 1] == seq(n - 1, _ => 0);
    }
  }

  // The counter after a full first window and n attempts at its end.
  function BurstCounter(window: int, limit: nat, n: nat): Option<Counter> {
    if n > 0 then Some(Counter(n, 2 * window)) else if limit > 0 then Some(Counter(limit, window)) else None
  }

  lemma {:induction false} SecondBurst(window: int, limit: nat, n: nat)
    requires window > 0 && n <= limit
    ensures AdmittedFrom(Burst(window, limit, n), window, limit, 0) == limit + n
    ensures After(Burst(window, limit, n), window) == BurstCounter(window, limit, n)
  {
    if n == 0 {
      FirstBurst(window, limit, limit);
      assert Burst(window, limit, 0) == seq(limit, _ => 0);
    } else {
      SecondBurst(window, limit, n - 1);
      LastOfBurst(window, limit, n);
    }
  }

  lemma LastOfBurst(window: int, limit: nat, n: nat)
    requires window > 0 && 0 < n <= limit
    requires AdmittedFrom(Burst(window, limit, n - 1), window, limit, 0) == limit + n - 1
    requires After(Burst(window, limit, n - 1), window) == BurstCounter(window, limit, n - 1)
    ensures AdmittedFrom(Burst(window, limit, n), window, limit, 0) == limit + n
    ensures After(Burst(window, limit, n), window) == BurstCounter(window, limit, n)
  {
    var times := Burst(window, limit, n);
    assert times[..|times| - 1] == Burst(window, limit, n - 1) && times[|times| - 1] == window;
  }

  // However many attempts follow, a window ends when its first attempt said it would ...
  lemma {:induction false} WindowEndIsFixed(times: seq<int>, more: seq<int>, window: int)
    requires times != []
    requires forall i :: 0 <= i < |more| ==> more[i] < After(times, window).value.end
    ensures After(times + more, window).value.end == After(times, window).value.end
  {
    if more == [] {
      assert times + more == times;
    } else {
      WindowEndIsFixed(times, more[..|more| - 1], window);
      assert (times + more)[..|times + more| - 1] == times + more[..|more| - 1];
    }
  }

  // ... and the first attempt from then on is admitted: nobody can keep somebody else locked out.
  lemma LockoutEnds(times: seq<int>, more: seq<int>, now: int, window: int, limit: nat)
    requires times != [] && limit > 0
    requires forall i :: 0 <= i < |more| ==> more[i] < After(times, window).value.end
    requires After(times, window).value.end <= now
    ensures Admitted(times + more + [now], |times| + |more|, window, limit)
  {
    WindowEndIsFixed(times, more, window);
    assert (times + more + [now])[..|times| + |more|] == times + more;
  }

  // ---- The audit log -------------------------------------------------------------------------------
  // Attempts made one after another, each counted before it fails and is written down; one that
  // is limited is refused before anything is recorded.

  function Logged(times: seq<int>, window: int, limit: nat): seq<int> {
    if times == [] then []
    else
      var log, now := Logged(times[..|times| - 1], window, limit), times[|times| - 1];
      if Recent(log, now - window) >= limit then log else log + [now]
  }

  function Between(log: seq<int>, from: int, to: int): nat {
    if log == [] then 0
    else Between(log[..|log| - 1], from, to) + if from < log[|log| - 1] <= to then 1 else 0
  }

  lemma {:induction false} BetweenIsRecent(log: seq<int>, from: int, to: int, since: int)
    requires since <= from
    ensures Between(log, from, to) <= Recent(log, since)
  {
    if log != [] {
      BetweenIsRecent(log[..|log| - 1], from, to, since);
    }
  }

  // Any sliding window admits at most `limit` failures.
  lemma {:induction false} SlidingWindowHolds(times: seq<int>, window: int, limit: nat, from: int)
    ensures Between(Logged(times, window, limit), from, from + window) <= limit
  {
    if times != [] {
      var front, now := times[..|times| - 1], times[|times| - 1];
      SlidingWindowHolds(front, window, limit, from);
      var log := Logged(front, window, limit);
      if Recent(log, now - window) < limit {
        assert (log + [now])[..|log|] == log;
        if from < now <= from + window {
          BetweenIsRecent(log, from, from + window, now - window);
        }
      }
    }
  }
}
