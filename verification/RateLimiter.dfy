/**
  The process-wide fixed-window rate limiter (observability/ratelimit.go). Times are nanoseconds. A window opens with
  the first call at or after the end of the previous one.
 */
module RateLimiting {
  import opened Common


  datatype Limiter = Limiter(windowStart: Option<int>, count: int)

  const Fresh := Limiter(None, 0)

  datatype Config = Config(limit: int, window: int)

  predicate ValidConfig(c: Config) {
    c.limit >= 1 && c.window > 0
  }

  // --------------------------------------------------------------- one call

  /** A call opens a new window if there is none, if the clock ran backwards, or if the window is over. */
  predicate Opens(c: Config, s: Limiter, now: int) {
    s.windowStart.None? || now < s.windowStart.value || now >= s.windowStart.value + c.window
  }

  function Opened(c: Config, s: Limiter, now: int): Limiter {
    if Opens(c, s, now) then Limiter(Some(now), 0) else s
  }

  predicate Admits(c: Config, s: Limiter, now: int) {
    Opened(c, s, now).count < c.limit
  }

  function Next(c: Config, s: Limiter, now: int): Limiter {
    var open := Opened(c, s, now);
    if open.count < c.limit then open.(count := open.count + 1) else open
  }

  /** How long until the window of a call is over. */
  function Wait(c: Config, s: Limiter, now: int): int
    requires Next(c, s, now).windowStart.Some?
  {
    Next(c, s, now).windowStart.value + c.window - now
  }

  // ----------------------------------------------------------------- traces

  function After(c: Config, times: seq<int>): Limiter {
    if times == [] then Fresh else Next(c, After(c, times[..|times| - 1]), Last(times))
  }

  ghost predicate NonDecreasing(times: seq<int>) {
    forall i, j :: 0 <= i < j < |times| ==> times[i] <= times[j]
  }

  /** How many calls in the half-open interval from one time to another are admitted. */
  function AdmittedBetween(c: Config, times: seq<int>, from: int, to: int): nat {
    if times == [] then 0
    else
      var front := times[..|times| - 1];
      AdmittedBetween(c, front, from, to)
      + (if from <= Last(times) < to && Admits(c, After(c, front), Last(times)) then 1 else 0)
  }

  /** How many calls are admitted in the window that opened at a time. */
  function AdmittedInWindow(c: Config, times: seq<int>, start: int): nat {
    if times == [] then 0
    else
      var front := times[..|times| - 1];
      AdmittedInWindow(c, front, start)
      + (if After(c, times).windowStart == Some(start) && Admits(c, After(c, front), Last(times)) then 1 else 0)
  }

  lemma FrontInOrder(times: seq<int>)
    requires NonDecreasing(times) && times != []
    ensures NonDecreasing(times[..|times| - 1])
    ensures forall i :: 0 <= i < |times| ==> times[i] <= Last(times)
  {
  }

  /** The open window began at a call, and counts what it admitted. */
  lemma {:induction false} WindowOfTrace(c: Config, times: seq<int>)
    requires ValidConfig(c) && NonDecreasing(times) && times != []
    ensures var s := After(c, times);
            && s.windowStart.Some? && s.windowStart.value <= Last(times) < s.windowStart.value + c.window
            && 1 <= s.count <= c.limit
    decreases |times|
  {
    var front := times[..|times| - 1];
    FrontInOrder(times);
    if front != [] { WindowOfTrace(c, front); }
  }

  /** What was admitted so far, as long as the trace has not left the interval that begins at a time. */
  lemma {:induction false} AdmittedSoFar(c: Config, times: seq<int>, from: int)
    requires ValidConfig(c) && NonDecreasing(times) && times != [] && Last(times) < from + c.window
    ensures var n, s := AdmittedBetween(c, times, from, from + c.window), After(c, times);
            && s.windowStart.Some?
            && (Last(times) < from ==> n == 0)
            && (s.windowStart.value < from ==> n <= s.count - 1)
            && (s.windowStart.value >= from ==> n <= c.limit - 1 + s.count)
    decreases |times|
  {
    var front := times[..|times| - 1];
    FrontInOrder(times);
    WindowOfTrace(c, times);
    if front != [] {
      assert Last(front) <= Last(times);
      WindowOfTrace(c, front);
      AdmittedSoFar(c, front, from);
    }
  }

  /** Calls from the end of the interval on are not in it. */
  lemma {:induction false} LaterCallsOutside(c: Config, times: seq<int>, more: seq<int>, from: int, to: int)
    requires forall i :: 0 <= i < |more| ==> more[i] >= to
    ensures AdmittedBetween(c, times + more, from, to) == AdmittedBetween(c, times, from, to)
    decreases |more|
  {
    if more == [] {
      assert times + more == times;
    } else {
      assert (times + more)[..|times + more| - 1] == times + more[..|more| - 1];
      LaterCallsOutside(c, times, more[..|more| - 1], from, to);
    }
  }

  function CallsBefore(times: seq<int>, to: int): (n: nat)
    ensures n <= |times|
    ensures n < |times| ==> times[n] >= to
    ensures n > 0 ==> times[n - 1] < to
  {
    if times == [] || Last(times) < to then |times|
    else CallsBefore(times[..|times| - 1], to)
  }

  lemma PrefixInOrder(times: seq<int>, n: nat)
    requires NonDecreasing(times) && n <= |times|
    ensures NonDecreasing(times[..n])
  {
  }

  lemma SuffixNotBefore(times: seq<int>, n: nat, to: int)
    requires NonDecreasing(times) && n <= |times| && (n < |times| ==> times[n] >= to)
    ensures forall i :: 0 <= i < |times[n..]| ==> times[n..][i] >= to
  {
    forall i | 0 <= i < |times[n..]| ensures times[n..][i] >= to {
      assert times[n..][i] == times[n + i];
    }
  }

  lemma SplitAtTime(times: seq<int>, to: int) returns (before: seq<int>, later: seq<int>)
    requires NonDecreasing(times)
    ensures times == before + later && NonDecreasing(before) && (before != [] ==> Last(before) < to)
    ensures forall i :: 0 <= i < |later| ==> later[i] >= to
  {
    var n := CallsBefore(times, to);
    PrefixInOrder(times, n);
    SuffixNotBefore(times, n, to);
    before, later := times[..n], times[n..];
  }

  lemma BoundInside(c: Config, inside: seq<int>, from: int)
    requires ValidConfig(c) && NonDecreasing(inside) && (inside != [] ==> Last(inside) < from + c.window)
    ensures AdmittedBetween(c, inside, from, from + c.window) <= 2 * c.limit - 1
  {
    if inside != [] {
      AdmittedSoFar(c, inside, from);
      WindowOfTrace(c, inside);
    }
  }

  /**
    Any half-open interval as long as the window admits fewer than twice the limit, in every trace of a clock that does
    not run backwards: the call that opened an earlier window was itself admitted outside the interval.
   */
  lemma IntervalAdmitsFewerThanTwice(c: Config, times: seq<int>, from: int)
    requires ValidConfig(c) && NonDecreasing(times)
    ensures AdmittedBetween(c, times, from, from + c.window) <= 2 * c.limit - 1
  {
    var before, later := SplitAtTime(times, from + c.window);
    LaterCallsOutside(c, before, later, from, from + c.window);
    BoundInside(c, before, from);
  }

  /** Each fixed window admits at most the limit. */
  lemma {:induction false} WindowAdmitsLimit(c: Config, times: seq<int>, start: int)
    requires ValidConfig(c) && NonDecreasing(times)
    ensures AdmittedInWindow(c, times, start) <= c.limit
    ensures After(c, times).windowStart == Some(start) ==> AdmittedInWindow(c, times, start) == After(c, times).count
    ensures After(c, times).windowStart.Some? && After(c, times).windowStart.value < start ==>
              AdmittedInWindow(c, times, start) == 0
    ensures times == [] ==> AdmittedInWindow(c, times, start) == 0
    decreases |times|
  {
    if times != [] {
      var front := times[..|times| - 1];
      FrontInOrder(times);
      WindowAdmitsLimit(c, front, start);
      WindowOfTrace(c, times);
      if front != [] {
        assert Last(front) <= Last(times);
        WindowOfTrace(c, front);
      }
    }
  }

  // ------------------------------------------------------------- the bound is met

  function Repeat(t: int, n: nat): (r: seq<int>)
    ensures |r| == n && forall i :: 0 <= i < n ==> r[i] == t
  {
    if n == 0 then [] else Repeat(t, n - 1) + [t]
  }

  /** Calls at one time in an open window are admitted until the limit is reached. */
  lemma {:induction false} RepeatedCalls(c: Config, times: seq<int>, t: int, n: nat, from: int, to: int)
    requires ValidConfig(c) && from <= t < to
    requires var s := After(c, times);
             s.windowStart.Some? && s.windowStart.value <= t < s.windowStart.value + c.window && 0 <= s.count
             && s.count + n <= c.limit
    ensures After(c, times + Repeat(t, n)) == After(c, times).(count := After(c, times).count + n)
    ensures AdmittedBetween(c, times + Repeat(t, n), from, to) == AdmittedBetween(c, times, from, to) + n
    decreases n
  {
    if n == 0 {
      assert times + Repeat(t, 0) == times;
    } else {
      RepeatedCalls(c, times, t, n - 1, from, to);
      assert (times + Repeat(t, n))[..|times + Repeat(t, n)| - 1] == times + Repeat(t, n - 1);
    }
  }

  /** The calls before the second window opens. */
  function FirstCalls(c: Config): seq<int>
    requires ValidConfig(c)
  {
    [0] + Repeat(c.window - 1, c.limit - 1)
  }

  /** One call opens a window, the rest of its budget comes at its end, and a full budget follows at once. */
  function Burst(c: Config): seq<int>
    requires ValidConfig(c)
  {
    FirstCalls(c) + [c.window] + Repeat(c.window, c.limit - 1)
  }

  lemma BurstInOrder(c: Config)
    requires ValidConfig(c) && c.window >= 2
    ensures NonDecreasing(Burst(c))
  {
  }

  /** A call at the end of the window opens the next one. */
  lemma OpeningCall(c: Config, times: seq<int>, t: int, from: int, to: int)
    requires ValidConfig(c) && Opens(c, After(c, times), t) && from <= t < to
    ensures After(c, times + [t]) == Limiter(Some(t), 1)
    ensures AdmittedBetween(c, times + [t], from, to) == AdmittedBetween(c, times, from, to) + 1
  {
    assert (times + [t])[..|times|] == times;
  }

  lemma FirstCallsCount(c: Config)
    requires ValidConfig(c) && c.window >= 2
    ensures After(c, FirstCalls(c)) == Limiter(Some(0), c.limit)
    ensures AdmittedBetween(c, FirstCalls(c), 1, 1 + c.window) == c.limit - 1
  {
    assert [0][..0] == [];
    RepeatedCalls(c, [0], c.window - 1, c.limit - 1, 1, 1 + c.window);
  }

  lemma BurstCount(c: Config)
    requires ValidConfig(c) && c.window >= 2
    ensures AdmittedBetween(c, Burst(c), 1, 1 + c.window) == 2 * c.limit - 1
  {
    var first := FirstCalls(c);
    FirstCallsCount(c);
    OpeningCall(c, first, c.window, 1, 1 + c.window);
    RepeatedCalls(c, first + [c.window], c.window, c.limit - 1, 1, 1 + c.window);
  }

  /** No smaller bound holds: some trace admits twice the limit less one within one window length. */
  lemma BoundIsMet(c: Config)
    requires ValidConfig(c) && c.window >= 2
    ensures exists times :: NonDecreasing(times) && AdmittedBetween(c, times, 1, 1 + c.window) == 2 * c.limit - 1
  {
    BurstInOrder(c);
    BurstCount(c);
  }

  // ---------------------------------------------------------------- waiting

  /** Calls within the window after a refusal are refused and change nothing. */
  lemma {:induction false} RefusedUntilWaited(c: Config, times: seq<int>, now: int, more: seq<int>)
    requires ValidConfig(c) && NonDecreasing(times + [now] + more) && !Admits(c, After(c, times), now)
    requires forall i :: 0 <= i < |more| ==> more[i] < now + Wait(c, After(c, times), now)
    ensures After(c, times + [now] + more) == After(c, times + [now])
    ensures After(c, times + [now]).windowStart.Some? && After(c, times + [now]).count >= c.limit
    decreases |more|
  {
    assert (times + [now])[..|times|] == times;
    if more == [] {
      assert times + [now] + more == times + [now];
    } else {
      var all := times + [now] + more;
      FrontInOrder(all);
      assert all[..|all| - 1] == times + [now] + more[..|more| - 1];
      assert all[|times|] == now && all[|all| - 1] == Last(more);
      RefusedUntilWaited(c, times, now, more[..|more| - 1]);
    }
  }

  /** Every call before the wait is over is refused. */
  lemma CallBeforeWaitIsRefused(c: Config, times: seq<int>, now: int, more: seq<int>, next: int)
    requires ValidConfig(c) && NonDecreasing(times + [now] + more) && !Admits(c, After(c, times), now)
    requires forall i :: 0 <= i < |more| ==> more[i] < now + Wait(c, After(c, times), now)
    requires now <= next < now + Wait(c, After(c, times), now)
    ensures !Admits(c, After(c, times + [now] + more), next)
  {
    RefusedUntilWaited(c, times, now, more);
    AfterOne(c, times, now);
  }

  lemma AfterOne(c: Config, times: seq<int>, now: int)
    ensures After(c, times + [now]) == Next(c, After(c, times), now)
  {
    assert (times + [now])[..|times + [now]| - 1] == times;
  }

  /** After a refusal, and whatever calls come before the wait is over, the first call at or after it is admitted. */
  lemma FirstCallAfterWaitIsAdmitted(c: Config, times: seq<int>, now: int, more: seq<int>, next: int)
    requires ValidConfig(c) && NonDecreasing(times + [now] + more) && !Admits(c, After(c, times), now)
    requires forall i :: 0 <= i < |more| ==> more[i] < now + Wait(c, After(c, times), now)
    requires next >= now + Wait(c, After(c, times), now)
    ensures Admits(c, After(c, times + [now] + more), next)
  {
    RefusedUntilWaited(c, times, now, more);
    AfterOne(c, times, now);
  }

  /** The wait after a call is positive and no longer than a window. */
  lemma WaitWithinWindow(c: Config, times: seq<int>, now: int)
    requires ValidConfig(c) && NonDecreasing(times + [now])
    ensures 0 < Wait(c, After(c, times), now) <= c.window
  {
    AfterOne(c, times, now);
    WindowOfTrace(c, times + [now]);
  }

  // ------------------------------------------------------------ the limiter

  class RateLimiter {
    const config: Config
    var windowStart: Option<int>
    var count: int
    ghost var times: seq<int>

    ghost predicate Valid()
      reads this
    {
      ValidConfig(config) && Limiter(windowStart, count) == After(config, times)
    }

    constructor (limit: int, window: int)
      requires limit >= 1 && window > 0
      ensures Valid() && config == Config(limit, window) && times == []
    {
      config := Config(limit, window);
      windowStart, count, times := None, 0, [];
    }

    method Allow(now: int) returns (allowed: bool, wait: int)
      requires Valid()
      modifies this
      ensures Valid() && times == old(times) + [now]
      ensures allowed == Admits(config, old(Limiter(windowStart, count)), now)
      ensures wait == Wait(config, old(Limiter(windowStart, count)), now)
      ensures NonDecreasing(times) ==> 0 < wait <= config.window
    {
      if NonDecreasing(times + [now]) { WaitWithinWindow(config, times, now); }
      assert (times + [now])[..|times|] == times;
      times := times + [now];
      if windowStart.None? || now < windowStart.value || now >= windowStart.value + config.window {
        windowStart := Some(now);
        count := 0;
      }
      if count >= config.limit { return false, windowStart.value + config.window - now; }
      count := count + 1;
      return true, windowStart.value + config.window - now;
    }
  }

  /** A limit below one or a window that is not positive means no limiter. */
  method NewRateLimiter(limit: int, window: int) returns (r: RateLimiter?)
    ensures r == null <==> limit < 1 || window <= 0
    ensures r != null ==> fresh(r) && r.Valid() && r.config == Config(limit, window) && r.times == []
  {
    if limit < 1 || window <= 0 { return null; }
    r := new RateLimiter(limit, window);
  }

  /** No limiter admits everything. */
  method AllowThrough(limiter: RateLimiter?, now: int) returns (allowed: bool, wait: int)
    requires limiter != null ==> limiter.Valid()
    modifies limiter
    ensures limiter == null ==> allowed && wait == 0
    ensures limiter != null ==> limiter.Valid() && limiter.times == old(limiter.times) + [now]
                                && allowed == Admits(limiter.config, After(limiter.config, old(limiter.times)), now)
  {
    if limiter == null { return true, 0; }
    allowed, wait := limiter.Allow(now);
  }
}
