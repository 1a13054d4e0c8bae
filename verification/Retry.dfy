/** The `RetryOnConcurrencyError` filter: when it asks for a re-execution, and how long it waits. */
module Retry {
  import opened Basics
  import opened FilterPipeline

  datatype Settings = Settings(maximumRetries: int, maximumBackoffTime: int, maximumJitter: int, scaleFactor: int)

  const DEFAULTS := Settings(10, 10_000, 1000, 100)

  /** `OnActionExecutionAsync` for execution number `execution`. `delayThrows` says whether the
      delay is cut short, by the request being aborted or by a negative delay. */
  function RetryBody(s: Settings, execution: nat, delayThrows: bool): Body {
    Body(1, (seen: seq<Exit>) =>
      if |seen| == 0 then Leave(Exit(FRESH, false))
      else
        var last := seen[|seen| - 1];
        if |seen| == 1 then CallNext(last.ctx)
        else if last.threw then Leave(last)
        else if last.ctx.executed.exception == Some(ConcurrencyException) && execution <= s.maximumRetries
        then Leave(Exit(last.ctx.(executed := last.ctx.executed.(strategy := ReExecute)), delayThrows))
        else Leave(last))
  }

  const IDENTITY: Hook := (c: Contexts) => Exit(c, false)

  function RetryFilter(s: Settings, execution: nat, delayThrows: bool): Filter {
    Filter(1, 0, 30, None, None, Some((IDENTITY, IDENTITY)), Some(RetryBody(s, execution, delayThrows)))
  }

  /** Execution numbers start at 0, and 0..MaximumRetries may ask for one more. */
  function MaximumExecutions(s: Settings): (n: nat)
    ensures n >= 1
  {
    if s.maximumRetries < 0 then 1 else s.maximumRetries + 2
  }

  // ---- CalculateBackoffTime ----

  function Pow2(n: nat): (p: nat)
    ensures p >= 1
  {
    if n == 0 then 1 else 2 * Pow2(n - 1)
  }

  /** `(int)Math.Pow(2, n - 1)`: one half truncates to zero; C# leaves an out-of-range conversion
      unspecified, and x86-64 yields the smallest `int`. */
  function CastPower(n: nat): int {
    if n == 0 then 0 else if n <= 31 then Pow2(n - 1) else -TWO_31
  }

  function Min(a: int, b: int): int {
    if a <= b then a else b
  }

  /** `CalculateBackoffTime(n)` with the unchecked 32-bit multiplication and addition. */
  function BackoffTime(s: Settings, n: nat, jitter: int): int {
    Min(Wrap32(Wrap32(CastPower(n) * s.scaleFactor) + jitter), s.maximumBackoffTime)
  }

  /** What `RandomNumberGenerator.GetInt32(MaximumJitter)` can return here. */
  predicate IsJitter(s: Settings, jitter: int) {
    if s.maximumJitter <= 0 then jitter == 0 else 0 <= jitter < s.maximumJitter
  }

  /** The delay that exact arithmetic would give. */
  function IntendedBackoff(s: Settings, n: nat, jitter: int): int {
    Min((if n == 0 then 0 else Pow2(n - 1)) * s.scaleFactor + jitter, s.maximumBackoffTime)
  }

  /** The settings are 32-bit integers, of any sign. */
  predicate Int32Settings(s: Settings) {
    && -TWO_31 <= s.maximumBackoffTime < TWO_31 && -TWO_31 <= s.maximumJitter < TWO_31
    && -TWO_31 <= s.scaleFactor < TWO_31
  }

  predicate NonNegative(s: Settings) {
    0 <= s.maximumBackoffTime < TWO_31 && 0 <= s.maximumJitter < TWO_31 && 0 <= s.scaleFactor < TWO_31
  }

  /** The settings keep execution `n` inside 31 bits. */
  predicate Fits(s: Settings, n: nat) {
    n <= 31 && CastPower(n) * s.scaleFactor + s.maximumJitter < TWO_31
  }

  lemma {:induction false} Pow2Monotone(a: nat, b: nat)
    requires a <= b
    ensures Pow2(a) <= Pow2(b)
  {
    if a < b { Pow2Monotone(a, b - 1); }
  }

  lemma CastPowerMonotone(a: nat, b: nat)
    requires a <= b <= 31
    ensures 0 <= CastPower(a) <= CastPower(b)
  {
    if a > 0 { Pow2Monotone(a - 1, b - 1); }
  }

  lemma ScaleMonotone(a: int, b: int, f: int)
    requires 0 <= a <= b && 0 <= f
    ensures 0 <= a * f <= b * f
  {
  }

  /** While the settings fit, the delay is the intended one and lies in 0..MaximumBackoffTime. */
  lemma BackoffInRange(s: Settings, n: nat, jitter: int)
    requires NonNegative(s) && IsJitter(s, jitter) && Fits(s, n)
    ensures BackoffTime(s, n, jitter) == IntendedBackoff(s, n, jitter)
    ensures 0 <= BackoffTime(s, n, jitter) <= s.maximumBackoffTime
  {
    CastPowerMonotone(0, n);
    ScaleMonotone(0, CastPower(n), s.scaleFactor);
  }

  /** The backoff is exponential: the first wait is the jitter alone, the second the scale factor and the
      jitter, and from then on what is waited beside the jitter doubles with every execution; all of it
      up to the cap. */
  lemma BackoffDoubles(s: Settings, n: nat, jitter: int)
    requires NonNegative(s) && IsJitter(s, jitter) && Fits(s, n)
    ensures n == 0 ==> BackoffTime(s, n, jitter) == Min(jitter, s.maximumBackoffTime)
    ensures n == 1 ==> BackoffTime(s, n, jitter) == Min(s.scaleFactor + jitter, s.maximumBackoffTime)
    ensures n >= 2 && BackoffTime(s, n, jitter) < s.maximumBackoffTime ==>
              BackoffTime(s, n, jitter) - jitter == 2 * (BackoffTime(s, n - 1, jitter) - jitter)
  {
    BackoffInRange(s, n, jitter);
    if n >= 2 {
      CastPowerMonotone(n - 1, n);
      ScaleMonotone(CastPower(n - 1), CastPower(n), s.scaleFactor);
      BackoffInRange(s, n - 1, jitter);
      Twice(Pow2(n - 2), s.scaleFactor);
    }
  }

  lemma Twice(a: int, f: int)
    ensures 2 * a * f == 2 * (a * f)
  {
  }

  /** For a fixed jitter a later execution never waits less. */
  lemma BackoffMonotone(s: Settings, n: nat, m: nat, jitter: int)
    requires NonNegative(s) && IsJitter(s, jitter) && n <= m && Fits(s, m)
    ensures BackoffTime(s, n, jitter) <= BackoffTime(s, m, jitter)
  {
    CastPowerMonotone(n, m);
    ScaleMonotone(CastPower(n), CastPower(m), s.scaleFactor);
    BackoffInRange(s, n, jitter);
    BackoffInRange(s, m, jitter);
  }

  /** What happens outside the host during one execution: how the method ends, whether the delay is
      cut short, whether the request's token is cancelled by the end, and the jitter drawn. */
  datatype Execution = Execution(outcome: ActionOutcome, delayThrows: bool, aborted: bool, jitter: int)

  /** The delays of the first `n` executions. */
  function TotalDelay(s: Settings, runs: nat -> Execution, n: nat): int {
    if n == 0 then 0 else TotalDelay(s, runs, n - 1) + BackoffTime(s, n - 1, runs(n - 1).jitter)
  }

  /** The first `n` delays are all within range. */
  predicate DelaysFit(s: Settings, runs: nat -> Execution, n: nat) {
    NonNegative(s) && forall i: nat :: i < n ==> IsJitter(s, runs(i).jitter) && Fits(s, i)
  }

  /** The executions that may ask for one more, each after a wait. */
  function AllowedWaits(s: Settings): nat {
    if s.maximumRetries < 0 then 0 else s.maximumRetries + 1
  }

  lemma OneMore(n: int, m: int)
    ensures (n + 1) * m == n * m + m
  {
  }

  /** The waiting time of a request grows by at most the cap with each re-execution. */
  lemma {:induction false} TotalDelayBound(s: Settings, runs: nat -> Execution, n: nat)
    requires DelaysFit(s, runs, n)
    ensures 0 <= TotalDelay(s, runs, n) <= n * s.maximumBackoffTime
  {
    if n > 0 {
      TotalDelayBound(s, runs, n - 1);
      BackoffInRange(s, n - 1, runs(n - 1).jitter);
      OneMore(n - 1, s.maximumBackoffTime);
    }
  }

  /** Waiting `n` times for `d` takes `n` times `d`. */
  lemma {:induction false} EqualDelays(s: Settings, runs: nat -> Execution, n: nat, d: int)
    requires forall j: nat :: j < n ==> BackoffTime(s, j, runs(j).jitter) == d
    ensures TotalDelay(s, runs, n) == n * d
  {
    if n > 0 {
      EqualDelays(s, runs, n - 1, d);
      OneMore(n - 1, d);
    }
  }

  /** No wait counts less than it is. */
  lemma {:induction false} EachDelayCounts(s: Settings, runs: nat -> Execution, n: nat, i: nat)
    requires i < n && DelaysFit(s, runs, n)
    ensures BackoffTime(s, i, runs(i).jitter) <= TotalDelay(s, runs, n)
  {
    if i < n - 1 {
      EachDelayCounts(s, runs, n - 1, i);
      BackoffInRange(s, n - 1, runs(n - 1).jitter);
    } else {
      TotalDelayBound(s, runs, n - 1);
    }
  }

  /** Executions 0..MaximumRetries may each be followed by one wait. */
  lemma RetryWaitsAtMost(s: Settings, runs: nat -> Execution, waits: nat)
    requires DelaysFit(s, runs, waits) && waits <= AllowedWaits(s)
    ensures 0 <= TotalDelay(s, runs, waits) <= AllowedWaits(s) * s.maximumBackoffTime
  {
    TotalDelayBound(s, runs, waits);
    ScaleMonotone(waits, AllowedWaits(s), s.maximumBackoffTime);
  }

  lemma AboveRange(n: nat, f: int)
    requires n >= 32 && f >= 1
    ensures Pow2(n - 1) * f >= TWO_31
  {
    assert Pow2(31) == TWO_31 by {
      assert Pow2(8) == 256;
      assert Pow2(16) == 65536;
      assert Pow2(24) == 16777216;
    }
    Pow2Monotone(31, n - 1);
    ScaleMonotone(TWO_31, Pow2(n - 1), f);
    ScaleMonotone(1, f, TWO_31);
  }

  lemma EvenOrOddTimesMinimum(f: int)
    ensures Wrap32(-TWO_31 * f) == if f % 2 == 0 then 0 else -TWO_31
  {
    var h := f / 2;
    if f % 2 == 0 {
      assert -TWO_31 * f + TWO_31 == TWO_32 * (-h) + TWO_31;
      QuotientUnique(-TWO_31 * f + TWO_31, -h, TWO_31, TWO_32);
    } else {
      assert -TWO_31 * f + TWO_31 == TWO_32 * (-h) + 0;
      QuotientUnique(-TWO_31 * f + TWO_31, -h, 0, TWO_32);
    }
  }

  lemma Wrap32ByRemainder(x: int)
    ensures Wrap32(x) == if x % TWO_32 < TWO_31 then x % TWO_32 else x % TWO_32 - TWO_32
  {
    var q, m := x / TWO_32, x % TWO_32;
    if m < TWO_31 {
      QuotientUnique(x + TWO_31, q, m + TWO_31, TWO_32);
    } else {
      QuotientUnique(x + TWO_31, q + 1, m - TWO_31, TWO_32);
    }
  }

  /** What the 32-bit operations make of the sum, before the cap: the exact sum reduced to 32 bits
      while the power fits, and after that the jitter, with the sign bit if the scale is odd. */
  lemma ComputedSum(s: Settings, n: nat, jitter: int)
    requires Int32Settings(s) && IsJitter(s, jitter)
    ensures Wrap32(Wrap32(CastPower(n) * s.scaleFactor) + jitter) ==
            if n <= 31 then Wrap32(CastPower(n) * s.scaleFactor + jitter)
            else if s.scaleFactor % 2 == 0 then jitter else jitter - TWO_31
  {
    if n <= 31 {
      ModIdempotent(CastPower(n) * s.scaleFactor + TWO_31, jitter, TWO_32);
    } else {
      EvenOrOddTimesMinimum(s.scaleFactor);
    }
  }

  /** Whatever the settings, the delay is non-negative exactly when the cap is and the exact sum,
      reduced to 32 bits, has no sign bit; from execution 32 on, when the cap is and the scale factor
      is even. */
  lemma BackoffNonNegative(s: Settings, n: nat, jitter: int)
    requires Int32Settings(s) && IsJitter(s, jitter)
    ensures 0 <= BackoffTime(s, n, jitter) <==>
            && 0 <= s.maximumBackoffTime
            && if n <= 31 then (CastPower(n) * s.scaleFactor + jitter) % TWO_32 < TWO_31 else s.scaleFactor % 2 == 0
  {
    ComputedSum(s, n, jitter);
    Wrap32ByRemainder(CastPower(n) * s.scaleFactor + jitter);
  }

  /** The delay is the one that exact arithmetic gives exactly when the exact sum fits in 31 bits or,
      reduced to 32 bits, still reaches the cap without the sign bit; and from execution 32 on, when
      the scale factor is zero or is even under a jitter that reaches the cap. */
  lemma BackoffIsIntended(s: Settings, n: nat, jitter: int)
    requires NonNegative(s) && IsJitter(s, jitter)
    ensures BackoffTime(s, n, jitter) == IntendedBackoff(s, n, jitter) <==>
            if n <= 31 then
              var exact := CastPower(n) * s.scaleFactor + jitter;
              exact < TWO_31 || s.maximumBackoffTime <= exact % TWO_32 < TWO_31
            else s.scaleFactor == 0 || (s.scaleFactor % 2 == 0 && jitter >= s.maximumBackoffTime)
  {
    ComputedSum(s, n, jitter);
    if n <= 31 {
      CastPowerMonotone(0, n);
      ScaleMonotone(0, CastPower(n), s.scaleFactor);
      CappedAlike(CastPower(n) * s.scaleFactor + jitter, s.maximumBackoffTime);
    } else if s.scaleFactor >= 1 {
      AboveRange(n, s.scaleFactor);
    } else {
      assert Pow2(n - 1) * s.scaleFactor == 0;
    }
  }

  lemma CappedAlike(exact: int, cap: int)
    requires 0 <= exact && 0 <= cap < TWO_31
    ensures Min(Wrap32(exact), cap) == Min(exact, cap) <==> exact < TWO_31 || cap <= exact % TWO_32 < TWO_31
  {
    Wrap32ByRemainder(exact);
  }

  /** Raising only `MaximumRetries` is enough to leave the range: the 26th re-execution under the
      default scale factor computes a negative delay. */
  lemma BackoffCanBeNegative()
    ensures BackoffTime(DEFAULTS.(maximumRetries := 30), 26, 0) < -1
  {
    assert Pow2(5) == 32;
    assert Pow2(10) == 1024 by { assert Pow2(8) == 256; }
    assert Pow2(15) == 32768 by { assert Pow2(13) == 8192; }
    assert Pow2(20) == 1048576 by { assert Pow2(18) == 262144; }
    assert Pow2(25) == 33554432 by { assert Pow2(23) == 8388608; }
  }
}
