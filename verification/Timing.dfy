/** The delays of the service-refresh timer, in nanoseconds. */
module RefreshTiming {
  const SECOND := 1_000_000_000
  const BACKOFF_FLOOR := 5 * SECOND
  const BACKOFF_CAP := 120 * SECOND
  const U64_MAX := 0xFFFF_FFFF_FFFF_FFFF

  function Min(a: nat, b: nat): nat {
    if a <= b then a else b
  }

  /** A float cast to an unsigned 64-bit integer: truncated, and saturated at both ends. */
  function ToU64(x: real): (n: nat)
    ensures x >= 0.0 ==> n as real <= x
  {
    if x < 0.0 then 0 else Min(x.Floor, U64_MAX)
  }

  lemma ToU64AtLeast(x: real, k: nat)
    requires k as real <= x
    ensures Min(k, U64_MAX) <= ToU64(x)
  {
  }

  /** `jittered_duration`. */
  function Jittered(base: nat, jitter: real, frac: real): (d: nat) {
    if jitter <= 0.0 then base
    else ToU64(Offset(base as real, Delta(base as real, jitter), frac))
  }

  function Delta(base: real, jitter: real): real {
    base * jitter
  }

  function Offset(base: real, delta: real, frac: real): real {
    base - delta + frac * 2.0 * delta
  }

  /** `backoff_delay`; the scaled span is rounded to the nearest nanosecond. */
  function Backoff(interval: nat, frac: real): (d: nat)
    requires 0.0 <= frac <= 1.0
  {
    var retryMax := Min(interval / 2, BACKOFF_CAP);
    if retryMax <= BACKOFF_FLOOR then BACKOFF_FLOOR
    else
      ScaledWithin(retryMax - BACKOFF_FLOOR, frac);
      BACKOFF_FLOOR + Nearest((retryMax - BACKOFF_FLOOR) as real * frac)
  }

  function Nearest(x: real): (n: nat)
    requires x >= 0.0
  {
    (x + 0.5).Floor
  }

  lemma ScaledWithin(span: nat, frac: real)
    requires 0.0 <= frac <= 1.0
    ensures 0.0 <= span as real * frac <= span as real
    ensures Nearest(span as real * frac) <= span
  {
    Monotone(frac, 1.0, span as real);
    Monotone(0.0, frac, span as real);
  }

  lemma Monotone(x: real, y: real, k: real)
    requires x <= y && k >= 0.0
    ensures k * x <= k * y
  {
    assert k * (y - x) >= 0.0;
  }

  lemma OffsetWithin(base: real, delta: real, frac: real)
    requires 0.0 <= delta && 0.0 <= frac <= 1.0
    ensures base - delta <= Offset(base, delta, frac) <= base + delta
  {
    var part := delta * frac;
    Monotone(0.0, frac, delta);
    Monotone(frac, 1.0, delta);
    assert 0.0 <= part <= delta;
    assert frac * 2.0 * delta == 2.0 * part;
    assert Offset(base, delta, frac) == base - delta + 2.0 * part;
  }

  lemma DeltaWithin(base: real, jitter: real)
    requires 0.0 <= base && 0.0 <= jitter <= 0.5
    ensures 0.0 <= Delta(base, jitter) <= base / 2.0
    ensures base * (1.0 + jitter) == base + Delta(base, jitter)
  {
    Monotone(0.0, jitter, base);
    Monotone(jitter, 0.5, base);
  }

  /** A retry waits at least 5 s, at most 2 min, and at most half the interval exactly when that is 5 s or more. */
  lemma BackoffBounds(interval: nat, frac: real)
    requires 0.0 <= frac <= 1.0
    ensures BACKOFF_FLOOR <= Backoff(interval, frac) <= BACKOFF_CAP
    ensures Backoff(interval, frac) <= interval / 2 <==> interval >= 10 * SECOND
  {
    var retryMax := Min(interval / 2, BACKOFF_CAP);
    if retryMax > BACKOFF_FLOOR {
      ScaledWithin(retryMax - BACKOFF_FLOOR, frac);
    }
  }

  /** An ordinary delay stays within the jitter of the interval, and so never falls under half of it. */
  lemma JitteredBounds(base: nat, jitter: real, frac: real)
    requires jitter <= 0.5 && 0.0 <= frac <= 1.0
    ensures Min(base / 2, U64_MAX) <= Jittered(base, jitter, frac)
    ensures jitter >= 0.0 ==> Jittered(base, jitter, frac) as real <= base as real * (1.0 + jitter)
  {
    if jitter > 0.0 {
      hide Delta, Offset, ToU64;
      var b := base as real;
      DeltaWithin(b, jitter);
      OffsetWithin(b, Delta(b, jitter), frac);
      ToU64AtLeast(Offset(b, Delta(b, jitter), frac), base / 2);
    }
  }

  /** A retry's delay runs from 5 s up to the maximum as the draw goes from 0 to 1. */
  lemma BackoffSpans(interval: nat)
    requires interval >= 10 * SECOND
    ensures Backoff(interval, 0.0) == 5_000_000_000
    ensures Backoff(interval, 1.0) == if interval / 2 <= 120_000_000_000 then interval / 2 else 120_000_000_000
  {
  }

  lemma BackoffGrows(interval: nat, low: real, high: real)
    requires 0.0 <= low <= high <= 1.0
    ensures Backoff(interval, low) <= Backoff(interval, high)
  {
    var retryMax := Min(interval / 2, BACKOFF_CAP);
    if retryMax > BACKOFF_FLOOR {
      Monotone(low, high, (retryMax - BACKOFF_FLOOR) as real);
    }
  }

  /** To the nearest nanosecond it is linear in the draw. */
  lemma BackoffIsLinear(interval: nat, frac: real)
    requires 0.0 <= frac <= 1.0 && interval >= 10 * SECOND
    ensures var top := if interval / 2 <= 120_000_000_000 then interval / 2 else 120_000_000_000;
            var exact := 5_000_000_000.0 + (top - 5_000_000_000) as real * frac;
            exact - 0.5 <= Backoff(interval, frac) as real <= exact + 0.5
  {
    var span := Min(interval / 2, BACKOFF_CAP) - BACKOFF_FLOOR;
    ScaledWithin(span, frac);
    RoundsToNearest(span as real * frac);
    hide Nearest;
    assert span == 0 ==> span as real * frac == 0.0;
  }

  lemma RoundsToNearest(x: real)
    requires x >= 0.0
    ensures x - 0.5 <= Nearest(x) as real <= x + 0.5
  {
  }

  /** An ordinary delay runs from the interval less its jitter to the interval with it. */
  lemma JitteredIsLinear(base: nat, jitter: real, frac: real)
    requires 0.0 <= jitter <= 0.5 && 0.0 <= frac <= 1.0 && 2 * base <= U64_MAX
    ensures var exact := base as real + base as real * jitter * (2.0 * frac - 1.0);
            exact - 1.0 < Jittered(base, jitter, frac) as real <= exact
  {
    var b := base as real;
    if jitter == 0.0 {
    } else {
      DeltaWithin(b, jitter);
      OffsetWithin(b, Delta(b, jitter), frac);
      OffsetIs(b, Delta(b, jitter), frac);
      Truncates(Offset(b, Delta(b, jitter), frac));
      hide Delta, Offset, ToU64;
      DeltaIs(b, jitter);
    }
  }

  lemma DeltaIs(base: real, jitter: real)
    ensures Delta(base, jitter) == base * jitter
  {
  }

  lemma OffsetIs(base: real, delta: real, frac: real)
    ensures Offset(base, delta, frac) == base + delta * (2.0 * frac - 1.0)
  {
  }

  lemma Truncates(x: real)
    requires 0.0 <= x <= U64_MAX as real
    ensures x - 1.0 < ToU64(x) as real <= x
  {
  }

  datatype Tick = Unavailable | Done | FailedOtherwise

  /** One pass of the loop: the tick's outcome, and the random draw for the delay that follows it. */
  datatype Pass = Pass(tick: Tick, draw: real)

  ghost predicate Draws(first: real, passes: seq<Pass>) {
    0.0 <= first <= 1.0 && forall i :: 0 <= i < |passes| ==> 0.0 <= passes[i].draw <= 1.0
  }

  /** The `i`-th sleep follows a tick that found the controller unavailable. */
  predicate IsRetry(passes: seq<Pass>, i: int) {
    1 <= i <= |passes| && passes[i - 1].tick.Unavailable?
  }

  /**
   `run_service_refreshes`, over any number of passes: the delays it sleeps. It never starts with a poll; a retry
   never waits longer than any ordinary delay of the same run, whatever the draws, and ordinary delays stay within
   the jitter.
   */
  method RunServiceRefreshes(interval: nat, jitter: real, first: real, passes: seq<Pass>) returns (sleeps: seq<nat>)
    requires 0.0 <= jitter <= 0.5 && Draws(first, passes)
    ensures |sleeps| == |passes| + 1
    ensures sleeps[0] == Jittered(interval, jitter, first)
    ensures forall i :: 0 <= i < |passes| ==>
                          sleeps[i + 1] == if passes[i].tick.Unavailable? then Backoff(interval, passes[i].draw)
                                           else Jittered(interval, jitter, passes[i].draw)
    ensures forall i :: IsRetry(passes, i) ==> BACKOFF_FLOOR <= sleeps[i] <= BACKOFF_CAP
    ensures forall i :: IsRetry(passes, i) ==> (sleeps[i] <= interval / 2 <==> interval >= 10 * SECOND)
    ensures forall i :: 0 <= i < |sleeps| && !IsRetry(passes, i) ==>
                          && Min(interval / 2, U64_MAX) <= sleeps[i]
                          && sleeps[i] as real <= interval as real * (1.0 + jitter)
    ensures interval >= 10 * SECOND ==>
              forall i, j :: IsRetry(passes, i) && 0 <= j < |sleeps| && !IsRetry(passes, j) ==> sleeps[i] <= sleeps[j]
  {
    hide Jittered, Backoff;
    var next := Jittered(interval, jitter, first);
    sleeps := [];
    var i := 0;
    while i < |passes|
      invariant 0 <= i <= |passes| && |sleeps| == i
      invariant forall k :: 0 <= k < i ==> sleeps[k] == Delay(interval, jitter, first, passes, k)
      invariant next == Delay(interval, jitter, first, passes, i)
    {
      sleeps := sleeps + [next];
      if passes[i].tick.Unavailable? {
        next := Backoff(interval, passes[i].draw);
      } else {
        next := Jittered(interval, jitter, passes[i].draw);
      }
      i := i + 1;
    }
    sleeps := sleeps + [next];
    AllSuit(interval, jitter, first, passes, sleeps);
  }

  /** The `k`-th sleep: a back-off after a tick that found the controller unavailable, else a jittered interval. */
  function Delay(interval: nat, jitter: real, first: real, passes: seq<Pass>, k: nat): nat
    requires k <= |passes| && forall i :: 0 <= i < |passes| ==> 0.0 <= passes[i].draw <= 1.0
  {
    if k == 0 then Jittered(interval, jitter, first)
    else if passes[k - 1].tick.Unavailable? then Backoff(interval, passes[k - 1].draw)
    else Jittered(interval, jitter, passes[k - 1].draw)
  }

  lemma DelaySuits(interval: nat, jitter: real, first: real, passes: seq<Pass>, k: nat)
    requires 0.0 <= jitter <= 0.5 && Draws(first, passes) && k <= |passes|
    ensures Suits(interval, jitter, passes, k, Delay(interval, jitter, first, passes, k))
  {
    hide Jittered, Backoff;
    if k == 0 {
      JitteredBounds(interval, jitter, first);
    } else {
      BackoffBounds(interval, passes[k - 1].draw);
      JitteredBounds(interval, jitter, passes[k - 1].draw);
    }
  }

  lemma AllSuit(interval: nat, jitter: real, first: real, passes: seq<Pass>, sleeps: seq<nat>)
    requires 0.0 <= jitter <= 0.5 && Draws(first, passes) && |sleeps| == |passes| + 1
    requires forall k :: 0 <= k < |sleeps| ==> sleeps[k] == Delay(interval, jitter, first, passes, k)
    ensures sleeps[0] == Jittered(interval, jitter, first)
    ensures forall i :: 0 <= i < |passes| ==>
                          sleeps[i + 1] == if passes[i].tick.Unavailable? then Backoff(interval, passes[i].draw)
                                           else Jittered(interval, jitter, passes[i].draw)
    ensures forall k :: 0 <= k < |sleeps| ==> Suits(interval, jitter, passes, k, sleeps[k])
  {
    hide Suits, Jittered, Backoff;
    forall k | 0 <= k < |sleeps|
      ensures Suits(interval, jitter, passes, k, sleeps[k])
    {
      DelaySuits(interval, jitter, first, passes, k);
    }
  }

  ghost predicate Suits(interval: nat, jitter: real, passes: seq<Pass>, k: int, d: nat) {
    if IsRetry(passes, k) then
      BACKOFF_FLOOR <= d <= BACKOFF_CAP && (d <= interval / 2 <==> interval >= 10 * SECOND)
    else
      Min(interval / 2, U64_MAX) <= d && d as real <= interval as real * (1.0 + jitter)
  }
}
