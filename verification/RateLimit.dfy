/** The fixed-window limiter: `InMemoryRateLimiter` of backend/app/services/rate_limit.py. */
module RateLimit {
  import opened Wrappers

  // ------------------------------------------------------------- one counter

  datatype Counter = Counter(count: nat, expiresAt: Time)
  datatype Verdict = Verdict(allowed: bool, retryAfterSeconds: int)

  /** The counter a check finds: what is stored, or a new window if none is open. */
  function Current(stored: Option<Counter>, now: Time, window: int): Counter
  {
    var found := if stored.Some? then stored.value else Counter(0, now + window as real);
    if now >= found.expiresAt then Counter(0, now + window as real) else found
  }

  function Hit(stored: Option<Counter>, now: Time, window: int): Counter
  {
    var current := Current(stored, now, window);
    current.(count := current.count + 1)
  }

  function Judge(counter: Counter, limit: int, now: Time): Verdict
  {
    if counter.count > limit then
      var left := Truncate(counter.expiresAt - now);
      Verdict(false, if left > 1 then left else 1)
    else Verdict(true, 0)
  }

  /** Python's `int` of a float: toward zero. */
  function Truncate(x: real): int
  {
    if x >= 0.0 then x.Floor else -(-x).Floor
  }

  class InMemoryRateLimiter {
    var counters: map<string, Counter>

    constructor ()
      ensures counters == map[]
    {
      counters := map[];
    }

    method Check(key: string, limit: int, window: int, now: Time) returns (v: Verdict)
      modifies this
      ensures var stored := if key in old(counters) then Some(old(counters)[key]) else None;
              && counters == old(counters)[key := Hit(stored, now, window)]
              && v == Judge(Hit(stored, now, window), limit, now)
    {
      var count, expiresAt := 0, now + window as real;
      if key in counters {
        count, expiresAt := counters[key].count, counters[key].expiresAt;
      }
      if now >= expiresAt {
        count, expiresAt := 0, now + window as real;
      }
      count := count + 1;
      counters := counters[key := Counter(count, expiresAt)];
      if count > limit {
        var left := Truncate(expiresAt - now);
        return Verdict(false, if left > 1 then left else 1);
      }
      return Verdict(true, 0);
    }

    method Reset()
      modifies this
      ensures counters == map[]
    {
      counters := map[];
    }
  }

  /** A check opens a window of its own length, or counts in the one that is open. */
  lemma HitCounts(stored: Option<Counter>, now: Time, window: int)
    ensures stored == None || stored.value.expiresAt <= now ==>
              Hit(stored, now, window) == Counter(1, now + window as real)
    ensures stored.Some? && now < stored.value.expiresAt ==>
              Hit(stored, now, window) == Counter(stored.value.count + 1, stored.value.expiresAt)
  {
  }

  /**
   * A check is refused when its window holds more than `limit`; the hint is the time left
   * in whole seconds, rounded down, and at least one.
   */
  lemma HintIsWholeSeconds(c: Counter, limit: int, now: Time)
    requires now < c.expiresAt
    ensures var v, left := Judge(c, limit, now), c.expiresAt - now;
            && (v.allowed <==> c.count <= limit)
            && (v.allowed ==> v.retryAfterSeconds == 0)
            && (!v.allowed && left < 2.0 ==> v.retryAfterSeconds == 1)
            && (!v.allowed && left >= 2.0 ==>
                  v.retryAfterSeconds as real <= left < v.retryAfterSeconds as real + 1.0)
  {
  }

  // ---------------------------------------------------------- traces of a key

  /** The counter after checks at the given times. */
  function After(stored: Option<Counter>, times: seq<Time>, window: int): Option<Counter>
  {
    if times == [] then stored else Some(Hit(After(stored, times[..|times| - 1], window), times[|times| - 1], window))
  }

  /** How many checks of a trace are allowed at times in [from, to]. */
  function AllowedIn(stored: Option<Counter>, times: seq<Time>, window: int, limit: int, from: Time, to: Time): nat
    decreases |times|
  {
    if times == [] then 0
    else
      var hit := Hit(stored, times[0], window);
      (if hit.count <= limit && from <= times[0] <= to then 1 else 0)
      + AllowedIn(Some(hit), times[1..], window, limit, from, to)
  }

  predicate NonDecreasing(times: seq<Time>)
  {
    forall i :: 0 < i < |times| ==> times[i - 1] <= times[i]
  }

  function Room(counter: Counter, limit: int): nat
  {
    if counter.count < limit then limit - counter.count else 0
  }

  function NonNegative(limit: int): nat
  {
    if limit > 0 then limit else 0
  }

  lemma TailNonDecreasing(times: seq<Time>)
    requires NonDecreasing(times) && times != []
    ensures NonDecreasing(times[1..])
  {
    var tail := times[1..];
    assert forall i :: 0 < i < |tail| ==> tail[i - 1] == times[i] && tail[i] == times[i + 1];
  }

  /** While the current window outlasts the interval, only its own room is left. */
  lemma {:induction false} WithinOneWindow(c: Counter, times: seq<Time>, window: int, limit: int, from: Time, to: Time)
    requires NonDecreasing(times) && c.expiresAt > to
    ensures AllowedIn(Some(c), times, window, limit, from, to) <= Room(c, limit)
    decreases |times|
  {
    if times != [] {
      TailNonDecreasing(times);
      var hit := Hit(Some(c), times[0], window);
      if times[0] > to {
        AfterInterval(Some(hit), times[1..], window, limit, from, to, times[0]);
      } else {
        WithinOneWindow(hit, times[1..], window, limit, from, to);
      }
    }
  }

  lemma {:induction false} AfterInterval(
    stored: Option<Counter>, times: seq<Time>, window: int, limit: int, from: Time, to: Time, last: Time)
    requires NonDecreasing(times) && last > to && (times != [] ==> times[0] >= last)
    ensures AllowedIn(stored, times, window, limit, from, to) == 0
    decreases |times|
  {
    if times != [] {
      TailNonDecreasing(times);
      AfterInterval(Some(Hit(stored, times[0], window)), times[1..], window, limit, from, to, last);
    }
  }

  /** A window open when the interval begins, and at most one more inside it. */
  lemma {:induction false} WithinTwoWindows(c: Counter, times: seq<Time>, window: int, limit: int, from: Time)
    requires NonDecreasing(times) && window > 0 && c.expiresAt > from
    ensures AllowedIn(Some(c), times, window, limit, from, from + window as real) <= Room(c, limit) + NonNegative(limit)
    decreases |times|
  {
    if times != [] {
      TailNonDecreasing(times);
      var hit := Hit(Some(c), times[0], window);
      if times[0] >= c.expiresAt {
        WithinOneWindow(hit, times[1..], window, limit, from, from + window as real);
      } else {
        WithinTwoWindows(hit, times[1..], window, limit, from);
      }
    }
  }

  /**
   * The bound of a fixed window: any closed interval one window long contains at most
   * `2 * limit` allowed checks, from whatever counter the trace starts.
   */
  lemma {:induction false} AtMostTwoLimitsPerWindow(
    stored: Option<Counter>, times: seq<Time>, window: int, limit: int, from: Time)
    requires NonDecreasing(times) && window > 0
    ensures AllowedIn(stored, times, window, limit, from, from + window as real) <= 2 * NonNegative(limit)
    decreases |times|
  {
    if stored.Some? && stored.value.expiresAt > from {
      WithinTwoWindows(stored.value, times, window, limit, from);
    } else if times != [] {
      TailNonDecreasing(times);
      var hit := Hit(stored, times[0], window);
      if times[0] < from {
        AtMostTwoLimitsPerWindow(Some(hit), times[1..], window, limit, from);
      } else {
        WithinTwoWindows(hit, times[1..], window, limit, from);
      }
    }
  }

  /** `n` checks at one moment. */
  function Burst(at: Time, n: nat): (times: seq<Time>)
    ensures |times| == n
  {
    seq(n, _ => at)
  }

  lemma {:induction false} BurstIsAllowed(
    c: Counter, at: Time, n: nat, rest: seq<Time>, window: int, limit: nat, from: Time, to: Time)
    requires at < c.expiresAt && from <= at <= to && c.count + n <= limit
    ensures AllowedIn(Some(c), Burst(at, n) + rest, window, limit, from, to)
         == n + AllowedIn(Some(c.(count := c.count + n)), rest, window, limit, from, to)
    decreases n
  {
    var times := Burst(at, n) + rest;
    if n == 0 {
      assert times == rest;
    } else {
      assert times[0] == at && times[1..] == Burst(at, n - 1) + rest;
      BurstIsAllowed(c.(count := c.count + 1), at, n - 1, rest, window, limit, from, to);
    }
  }

  /** The bound is met: a burst as a window opens and a burst the moment it lapses. */
  lemma TwoLimitsAreReached(at: Time, window: int, limit: nat)
    requires window > 0 && limit > 0
    ensures var times := Burst(at, limit) + Burst(at + window as real, limit);
            && NonDecreasing(times)
            && AllowedIn(None, times, window, limit, at, at + window as real) == 2 * limit
  {
    var later := at + window as real;
    var first, second := Burst(at, limit), Burst(later, limit);
    var times := first + second;
    var begun := Hit(None, at, window);
    assert times[1..] == Burst(at, limit - 1) + second;
    BurstIsAllowed(begun, at, limit - 1, second, window, limit, at, later);
    var full := begun.(count := limit);
    var begunAgain := Hit(Some(full), later, window);
    assert second[1..] == Burst(later, limit - 1) && Burst(later, limit - 1) + [] == Burst(later, limit - 1);
    BurstIsAllowed(begunAgain, later, limit - 1, [], window, limit, at, later);
  }

  lemma {:induction false} AfterCons(stored: Option<Counter>, times: seq<Time>, window: int)
    requires times != []
    ensures After(stored, times, window) == After(Some(Hit(stored, times[0], window)), times[1..], window)
    decreases |times|
  {
    if |times| > 1 {
      var init := times[..|times| - 1];
      AfterCons(stored, init, window);
      assert times[1..][..|times| - 2] == init[1..];
    }
  }

  /** One more check: it counts if it is allowed and falls in the interval. */
  lemma {:induction false} AllowedSnoc(
    stored: Option<Counter>, times: seq<Time>, t: Time, window: int, limit: int, from: Time, to: Time)
    ensures AllowedIn(stored, times + [t], window, limit, from, to)
         == AllowedIn(stored, times, window, limit, from, to)
            + if Hit(After(stored, times, window), t, window).count <= limit && from <= t <= to then 1 else 0
    decreases |times|
  {
    var more := times + [t];
    if times == [] {
      assert more[1..] == [];
    } else {
      assert more[1..] == times[1..] + [t];
      AfterCons(stored, times, window);
      AllowedSnoc(Some(Hit(stored, times[0], window)), times[1..], t, window, limit, from, to);
    }
  }

  lemma {:induction false} WiderIntervalsHoldMore(
    stored: Option<Counter>, times: seq<Time>, window: int, limit: int, from: Time, earlier: Time, to: Time)
    requires earlier <= from
    ensures AllowedIn(stored, times, window, limit, from, to) <= AllowedIn(stored, times, window, limit, earlier, to)
    decreases |times|
  {
    if times != [] {
      WiderIntervalsHoldMore(
        Some(Hit(stored, times[0], window)), times[1..], window, limit, from, earlier, to);
    }
  }

  lemma InitNonDecreasing(times: seq<Time>, last: Time)
    requires NonDecreasing(times + [last])
    ensures NonDecreasing(times) && (times != [] ==> times[|times| - 1] <= last)
  {
    var more, n := times + [last], |times|;
    forall i | 0 < i < n ensures times[i - 1] <= times[i] {
      assert more[i - 1] == times[i - 1] && more[i] == times[i];
    }
    assert n > 0 ==> more[n - 1] == times[n - 1] && more[n] == last;
  }

  /** The open window holds as many allowed checks as its counter says, up to the limit. */
  lemma {:induction false} OpenWindowIsCounted(times: seq<Time>, window: int, limit: int, now: Time)
    requires times != [] && NonDecreasing(times) && times[|times| - 1] <= now && window > 0
    ensures var c := After(None, times, window).value;
            && c.expiresAt - window as real <= times[|times| - 1]
            && AllowedIn(None, times, window, limit, c.expiresAt - window as real, now) >= Min(c.count, limit)
    decreases |times|
  {
    var n := |times| - 1;
    var init, t := times[..n], times[n];
    assert times == init + [t];
    InitNonDecreasing(init, t);
    var hit := Hit(After(None, init, window), t, window);
    assert After(None, times, window) == Some(hit);
    AllowedSnoc(None, init, t, window, limit, hit.expiresAt - window as real, now);
    if n > 0 {
      OpenWindowIsCounted(init, window, limit, now);
    }
  }

  /**
   * No unfair refusal: a check is refused only if the window's length before it already
   * holds `limit` allowed checks.
   */
  lemma RefusedOnlyWhenFull(times: seq<Time>, window: int, limit: int, now: Time)
    requires NonDecreasing(times + [now]) && window > 0 && limit > 0
    requires !Judge(Hit(After(None, times, window), now, window), limit, now).allowed
    ensures AllowedIn(None, times, window, limit, now - window as real, now) >= limit
  {
    InitNonDecreasing(times, now);
    assert times == [] ==> After(None, times, window) == None;
    OpenWindowIsCounted(times, window, limit, now);
    var began := After(None, times, window).value.expiresAt - window as real;
    WiderIntervalsHoldMore(None, times, window, limit, began, now - window as real, now);
  }

  /**
   * The hint is truncated to whole seconds, at least one: a retry at exactly that moment
   * is allowed if and only if the window had at most one second, or whole seconds, left.
   */
  lemma RetryAtHintSucceedsExactlyWhen(c: Counter, limit: int, window: int, now: Time)
    requires limit >= 1 && window > 0 && now < c.expiresAt && c.count > limit
    ensures var left := c.expiresAt - now;
            var later := now + Judge(c, limit, now).retryAfterSeconds as real;
            Judge(Hit(Some(c), later, window), limit, later).allowed
            <==> left <= 1.0 || left == left.Floor as real
  {
  }

  /**
   * From an empty limiter, one check a minute allowed: the check after 58.5 seconds is
   * refused with a hint of one second, and so is the retry a second later.
   */
  lemma RetryAtHintCanFail()
    ensures var c := After(None, [0.0, 58.5], 60);
            && c == Some(Counter(2, 60.0)) && Judge(c.value, 1, 58.5) == Verdict(false, 1)
            && !Judge(Hit(c, 59.5, 60), 1, 59.5).allowed
  {
    var times: seq<Time> := [0.0, 58.5];
    assert times[..1] == [0.0] && times[..1][..0] == [];
    assert After(None, [0.0], 60) == Some(Counter(1, 60.0));
  }

  /** One second more than the hint always opens a new window. */
  lemma RetryHintPlusOneSucceeds(c: Counter, limit: int, window: int, now: Time, later: Time)
    requires limit >= 1 && window > 0 && now < c.expiresAt && c.count > limit
    requires later >= now + Judge(c, limit, now).retryAfterSeconds as real + 1.0
    ensures Judge(Hit(Some(c), later, window), limit, later).allowed
  {
    var left := c.expiresAt - now;
    assert left < left.Floor as real + 1.0;
  }
}
