/** The fixed-window limiter of one connection. */
module RateLimiter {

  /** Zero-window allowance, calls per window, window length in seconds. */
  datatype Config = Config(zero: nat, max: nat, window: nat)

  datatype Limit = Limit(requests: int, start: int)

  function Fresh(c: Config): Limit {
    Limit(0 - c.zero, 0)
  }

  /** The limiter after a call at `now`, and the answer. */
  function Next(c: Config, l: Limit, now: int): (Limit, bool) {
    if l.requests < 0 then (l.(requests := l.requests + 1), true)
    else
      var w := if now - l.start > c.window then Limit(0, now) else l;
      if w.requests < c.max then (w.(requests := w.requests + 1), true) else (w, false)
  }

  class Limiter {
    const config: Config
    var limitWindowRequests: int
    var limitWindowStart: int

    function State(): Limit
      reads this
    {
      Limit(limitWindowRequests, limitWindowStart)
    }

    constructor (config: Config)
      ensures State() == Fresh(config) && this.config == config
    {
      this.config, limitWindowRequests, limitWindowStart := config, 0 - config.zero, 0;
    }

    method Allow(now: int) returns (allowed: bool)
      modifies this
      ensures (State(), allowed) == Next(config, old(State()), now)
    {
      if limitWindowRequests < 0 {
        limitWindowRequests := limitWindowRequests + 1;
        return true;
      }
      if now - limitWindowStart > config.window {
        limitWindowStart, limitWindowRequests := now, 0;
      }
      if limitWindowRequests < config.max {
        limitWindowRequests := limitWindowRequests + 1;
        return true;
      }
      return false;
    }
  }

  // ---- runs ----

  /** The limiter after calls at the given times. */
  function After(c: Config, times: seq<int>): Limit {
    if times == [] then Fresh(c) else Next(c, After(c, times[..|times| - 1]), times[|times| - 1]).0
  }

  /** Whether the last of the calls was allowed. */
  predicate LastAllowed(c: Config, times: seq<int>)
    requires times != []
  {
    Next(c, After(c, times[..|times| - 1]), times[|times| - 1]).1
  }

  /** How many of the calls were allowed. */
  function Allowed(c: Config, times: seq<int>): nat {
    if times == [] then 0
    else Allowed(c, times[..|times| - 1]) + if LastAllowed(c, times) then 1 else 0
  }

  predicate Nondecreasing(times: seq<int>) {
    forall i, j :: 0 <= i <= j < |times| ==> times[i] <= times[j]
  }

  /** The first call that reads the clock is the one after the zero-window allowance. */
  function FirstReading(c: Config, times: seq<int>): int
    requires |times| > c.zero
  {
    times[c.zero]
  }

  /** The windows that have begun since the first reading when `now` is read; a window lasts `window + 1` readings. */
  function Windows(c: Config, first: int, now: int): int {
    (now - first) / (c.window + 1)
  }

  /** The zero-window calls come first and are all allowed. */
  lemma {:induction false} ZeroWindow(c: Config, times: seq<int>)
    requires |times| <= c.zero
    ensures After(c, times) == Limit(|times| - c.zero, 0) && Allowed(c, times) == |times|
  {
    if times != [] { ZeroWindow(c, times[..|times| - 1]); }
  }

  /** The k-th window opened at least `k * (window + 1)` seconds after the base; in it `requests` calls were
      allowed, in the ones before it at most `max` each. The base is the first reading if that one opened a
      window, otherwise the zero of the clock, where the first window is taken to have opened. */
  lemma {:induction false} CountedWindows(c: Config, times: seq<int>) returns (k: nat)
    requires |times| > c.zero && Nondecreasing(times) && times[c.zero] >= 0
    ensures var l, base := After(c, times), Base(c, times);
            && 0 <= l.requests <= c.max && l.start <= times[|times| - 1]
            && base + k * (c.window + 1) <= l.start
            && Allowed(c, times) <= c.zero + k * c.max + l.requests
            && times[|times| - 1] - l.start <= c.window
            && (k == 0 ==> Allowed(c, times) == c.zero + l.requests)
    decreases |times|
  {
    var prev, now := times[..|times| - 1], times[|times| - 1];
    if |prev| == c.zero {
      ZeroWindow(c, prev);
      k := 0;
    } else {
      k := CountedWindows(c, prev);
      assert prev[c.zero] == times[c.zero] && prev[|prev| - 1] <= now;
      if now - After(c, prev).start > c.window {
        WindowStep(k, c.window + 1, c.max);
        k := k + 1;
      }
    }
  }

  lemma WindowStep(k: nat, w: nat, m: nat)
    ensures (k + 1) * w == k * w + w && (k + 1) * m == k * m + m
  {
  }

  function Base(c: Config, times: seq<int>): int
    requires |times| > c.zero
  {
    if FirstReading(c, times) > c.window then FirstReading(c, times) else 0
  }

  lemma AtMost(k: nat, w: nat, d: int)
    requires w > 0 && k * w <= d
    ensures k <= d / w
  {
    var q := d / w;
    assert d < (q + 1) * w by {
      assert d == q * w + d % w && (q + 1) * w == q * w + w;
    }
    if k > q {
      MulMonotone(q + 1, k, w);
      assert false;
    }
  }

  lemma MulMonotone(a: nat, b: nat, m: nat)
    requires a <= b
    ensures a * m <= b * m
  {
    assert b * m == a * m + (b - a) * m;
  }

  /** The rate bound: on a clock that does not run backwards at most the zero-window allowance and `max` calls
      for each window begun are allowed. */
  lemma RateBound(c: Config, times: seq<int>)
    requires |times| > c.zero && Nondecreasing(times) && times[c.zero] >= 0
    ensures Allowed(c, times) <= c.zero + c.max * (1 + Windows(c, Base(c, times), times[|times| - 1]))
  {
    var k := CountedWindows(c, times);
    var base := Base(c, times);
    var q := Windows(c, base, times[|times| - 1]);
    AtMost(k, c.window + 1, times[|times| - 1] - base);
    Bounded(c.zero, k, q, c.max, After(c, times).requests);
  }

  lemma Bounded(zero: nat, k: nat, q: nat, max: nat, requests: int)
    requires k <= q && requests <= max
    ensures zero + k * max + requests <= zero + max * (1 + q)
  {
    MulMonotone(k, q, max);
    assert max * (1 + q) == max + q * max;
  }

  /** The first `zero + max` calls are never refused. */
  lemma {:induction false} FirstCallsAllowed(c: Config, times: seq<int>)
    requires |times| <= c.zero + c.max
    ensures Allowed(c, times) == |times| && After(c, times).requests <= |times| - c.zero
  {
    if times != [] { FirstCallsAllowed(c, times[..|times| - 1]); }
  }

  /** The last `n` calls that were allowed, all at or after `start`. */
  function AllowedSince(c: Config, times: seq<int>, start: int): nat {
    if times == [] || times[|times| - 1] < start then 0
    else AllowedSince(c, times[..|times| - 1], start) + if LastAllowed(c, times) then 1 else 0
  }

  /** The counter of the current window counts calls that were really allowed since it opened. */
  lemma {:induction false} WindowCount(c: Config, times: seq<int>)
    requires Nondecreasing(times) && (times != [] ==> times[0] >= 0)
    ensures After(c, times).requests <= AllowedSince(c, times, After(c, times).start)
    ensures times != [] ==> After(c, times).start <= times[|times| - 1]
    ensures After(c, times).start >= 0
  {
    if times != [] {
      var prev, now := times[..|times| - 1], times[|times| - 1];
      WindowCount(c, prev);
      if prev != [] { assert prev[|prev| - 1] <= now; }
    }
  }

  /** A refusal means that `max` calls were allowed since a moment at most `window` seconds ago. */
  lemma RefusalMeansBusy(c: Config, times: seq<int>)
    requires times != [] && Nondecreasing(times) && times[0] >= 0 && !LastAllowed(c, times)
    ensures var start := After(c, times).start;
            && times[|times| - 1] - c.window <= start <= times[|times| - 1]
            && AllowedSince(c, times, start) >= c.max
  {
    WindowCount(c, times);
  }
}
