/** Randomized exponential backoff: the range each retry draws its delay from, and the
diagnostic that decides whether any reachable retry has a range to draw from at all. */
module Backoff {
  import opened Options
  import opened Delays

  datatype RandomExponential = RandomExponential(base: real, factor: real, minimum: real, maximum: Option<real>)

  /** What the constructor accepts. */
  predicate Valid(s: RandomExponential) {
    && s.base >= 0.0 && s.factor > 0.0
    && 0.0 <= s.minimum <= MAX_SLEEP_SECONDS
    && (s.maximum.Some? ==> s.minimum <= s.maximum.value <= MAX_SLEEP_SECONDS)
  }

  function Pow(x: real, n: nat): real {
    if n == 0 then 1.0 else x * Pow(x, n - 1)
  }

  /** The backoff before any cap, for retry number `n` (from 1). */
  function Uncapped(s: RandomExponential, n: nat): real {
    s.base * Pow(s.factor, if n >= 1 then n - 1 else 0)
  }

  /** A delay above the minimum that retry number `n` may be given: up to its backoff, the maximum if there is
      one, and a day. */
  predicate InReach(s: RandomExponential, n: nat, delay: real) {
    && s.minimum < delay <= Uncapped(s, n) && delay <= 24.0 * 60.0 * 60.0
    && (s.maximum.Some? ==> delay <= s.maximum.value)
  }

  /** The upper end of the draw for retry number `n`; the lower end is `minimum`. It is the largest delay in
      reach, or the minimum when there is none. */
  function Upper(s: RandomExponential, n: nat): (u: real)
    requires Valid(s)
    ensures s.minimum <= u <= MAX_SLEEP_SECONDS && (s.maximum.Some? ==> u <= s.maximum.value)
    ensures u == s.minimum || InReach(s, n, u)
    ensures forall delay :: InReach(s, n, delay) ==> delay <= u
  {
    if s.base == 0.0 then
      ZeroBase(s, n);
      s.minimum
    else
      var cap := Uncapped(s, n);
      var capped := if s.maximum.Some? then Min(cap, s.maximum.value)
          else if cap > MAX_SLEEP_SECONDS then MAX_SLEEP_SECONDS else cap;
      if capped > s.minimum then capped else s.minimum
  }

  /** Retry number `n` is made when up to `retries` are (None: any number). */
  predicate Reachable(n: nat, retries: Option<nat>) {
    1 <= n && (retries.Some? ==> n <= retries.value)
  }

  /** Some reachable retry draws from a range with more than one point. */
  ghost predicate SomeRetryVaries(s: RandomExponential, retries: Option<nat>)
    requires Valid(s)
  {
    exists n :: Reachable(n, retries) && Upper(s, n) > s.minimum
  }

  /** Some reachable retry's uncapped backoff exceeds `x`. */
  ghost predicate GrowsPast(s: RandomExponential, retries: Option<nat>, x: real) {
    exists n :: Reachable(n, retries) && Uncapped(s, n) > x
  }

  /** The diagnostic, with an infinite largest cap written as None. */
  predicate CanVary(s: RandomExponential, retries: Option<nat>) {
    if retries == Some(0) || s.base <= 0.0 then false
    else if s.maximum.Some? && s.maximum.value <= s.minimum then false
    else
      var largest :=
        if s.factor <= 1.0 || retries == Some(1) then Some(s.base)
        else if retries.None? then None
        else Some(s.base * Pow(s.factor, retries.value - 1));
      var capped :=
        if s.maximum.None? then largest
        else if largest.None? then s.maximum
        else Some(Min(largest.value, s.maximum.value));
      capped.None? || capped.value > s.minimum
  }

  // ---------------------------------------------------------------- powers

  lemma {:induction false} PowPositive(x: real, n: nat)
    requires x > 0.0
    ensures Pow(x, n) > 0.0
  {
    if n > 0 {
      PowPositive(x, n - 1);
    }
  }

  lemma {:induction false} PowAtMostOne(x: real, n: nat)
    requires 0.0 < x <= 1.0
    ensures Pow(x, n) <= 1.0
  {
    if n > 0 {
      PowAtMostOne(x, n - 1);
      PowPositive(x, n - 1);
      assert x * Pow(x, n - 1) <= 1.0 * Pow(x, n - 1);
    }
  }

  lemma {:induction false} PowMonotone(x: real, m: nat, n: nat)
    requires 1.0 <= x && m <= n
    ensures Pow(x, m) <= Pow(x, n)
  {
    if m < n {
      PowMonotone(x, m, n - 1);
      PowPositive(x, n - 1);
      assert x * Pow(x, n - 1) >= 1.0 * Pow(x, n - 1);
    }
  }

  lemma BernoulliStep(d: real, p: real, k: real)
    requires d > 0.0 && k >= 0.0 && p >= 1.0 + k * d
    ensures (1.0 + d) * p >= 1.0 + (k + 1.0) * d
  {
    assert k * d >= 0.0;
    assert d * p >= d * 1.0;
    assert (1.0 + d) * p == p + d * p;
    assert (k + 1.0) * d == k * d + d;
  }

  /** Bernoulli's inequality. */
  lemma {:induction false} PowGrows(d: real, n: nat)
    requires d > 0.0
    ensures Pow(1.0 + d, n) >= 1.0 + n as real * d
  {
    if n > 0 {
      PowGrows(d, n - 1);
      var p, k := Pow(1.0 + d, n - 1), (n - 1) as real;
      BernoulliStep(d, p, k);
      assert n as real == k + 1.0;
    }
  }

  /** Growth beyond any bound. */
  lemma SomePowExceeds(base: real, factor: real, x: real) returns (n: nat)
    requires base > 0.0 && factor > 1.0 && x >= 0.0
    ensures base * Pow(factor, n) > x
  {
    var d := factor - 1.0;
    var steps: real;
    n, steps := StepsBeyond(base * d, x);
    PowGrows(d, n);
    assert base * Pow(factor, n) >= base * (1.0 + steps * d);
    assert base * (1.0 + steps * d) == base + steps * (base * d);
  }

  lemma StepsBeyond(step: real, x: real) returns (n: nat, steps: real)
    requires step > 0.0 && x >= 0.0
    ensures steps == n as real && steps * step > x
  {
    var q := x / step;
    n := q.Floor + 1;
    steps := n as real;
    assert steps > q;
    assert steps * step > q * step;
  }

  // ---------------------------------------------------------------- the diagnostic is exact, but for one corner

  /** A product with a factor that is not negative grows with the other one. */
  lemma ScaleMonotone(b: real, x: real, y: real)
    requires b >= 0.0 && x <= y
    ensures b * x <= b * y
  {
  }

  lemma UncappedIs(s: RandomExponential, n: nat)
    requires n >= 1
    ensures Uncapped(s, n) == s.base * Pow(s.factor, n - 1)
    ensures Uncapped(s, 1) == s.base
  {
  }

  lemma ZeroBase(s: RandomExponential, n: nat)
    ensures s.base == 0.0 ==> Uncapped(s, n) == 0.0
  {
    hide Pow;
  }

  /** No reachable retry exceeds what the diagnostic takes for the largest cap. */
  lemma LargestCap(s: RandomExponential, retries: Option<nat>, n: nat)
    requires Valid(s) && Reachable(n, retries)
    ensures s.factor <= 1.0 || retries == Some(1) ==> Uncapped(s, n) <= s.base
    ensures s.factor > 1.0 && retries.Some? ==> Uncapped(s, n) <= s.base * Pow(s.factor, retries.value - 1)
  {
    hide Pow, Uncapped;
    UncappedIs(s, n);
    if s.factor <= 1.0 {
      PowAtMostOne(s.factor, n - 1);
      ScaleMonotone(s.base, Pow(s.factor, n - 1), 1.0);
    } else if retries.Some? {
      PowMonotone(s.factor, n - 1, retries.value - 1);
      ScaleMonotone(s.base, Pow(s.factor, n - 1), Pow(s.factor, retries.value - 1));
    }
  }

  /** Whether the largest uncapped backoff of the reachable retries exceeds `x`, read off the settings. */
  predicate LargestExceeds(s: RandomExponential, retries: Option<nat>, x: real) {
    retries != Some(0) && s.base > 0.0
    && (if s.factor <= 1.0 || retries == Some(1) then s.base > x
        else retries.None? || s.base * Pow(s.factor, retries.value - 1) > x)
  }

  /** The reachable retry with the largest uncapped backoff, or one that is large enough. */
  lemma LargestIsReached(s: RandomExponential, retries: Option<nat>, x: real)
    requires Valid(s) && x >= 0.0 && LargestExceeds(s, retries, x)
    ensures GrowsPast(s, retries, x)
  {
    hide Pow, Uncapped;
    UncappedIs(s, 1);
    if s.factor <= 1.0 || retries == Some(1) {
      assert Reachable(1, retries);
    } else if retries.Some? {
      UncappedIs(s, retries.value);
      assert Reachable(retries.value, retries);
    } else {
      var n := SomePowExceeds(s.base, s.factor, x);
      UncappedIs(s, n + 1);
      assert Reachable(n + 1, retries);
    }
  }

  lemma GrowsPastIff(s: RandomExponential, retries: Option<nat>, x: real)
    requires Valid(s) && x >= 0.0
    ensures GrowsPast(s, retries, x) <==> LargestExceeds(s, retries, x)
  {
    hide Pow, Uncapped;
    if LargestExceeds(s, retries, x) {
      LargestIsReached(s, retries, x);
    }
    if n :| Reachable(n, retries) && Uncapped(s, n) > x {
      ZeroBase(s, n);
      LargestCap(s, retries, n);
    }
  }

  /** The diagnostic asks whether the uncapped backoff of some reachable retry exceeds the minimum. */
  lemma CanVaryIffGrowsPastMinimum(s: RandomExponential, retries: Option<nat>)
    requires Valid(s)
    ensures CanVary(s, retries)
       <==> GrowsPast(s, retries, s.minimum) && (s.maximum.Some? ==> s.maximum.value > s.minimum)
  {
    hide Pow, GrowsPast;
    GrowsPastIff(s, retries, s.minimum);
  }

  /** Backoff that does not shrink draws from ranges that do not. */
  lemma UpperDoesNotFall(s: RandomExponential, m: nat, n: nat)
    requires Valid(s) && s.factor >= 1.0 && m <= n
    ensures Upper(s, m) <= Upper(s, n)
  {
    hide Pow;
    var i, j := if m >= 1 then m - 1 else 0, if n >= 1 then n - 1 else 0;
    PowMonotone(s.factor, i, j);
    ScaleMonotone(s.base, Pow(s.factor, i), Pow(s.factor, j));
    if Upper(s, m) > s.minimum {
      assert InReach(s, n, Upper(s, m));
    }
  }

  /** The first retry draws from the base, and each further backoff is `factor` times the one before. */
  lemma BackoffGrows(s: RandomExponential, n: nat)
    requires n >= 1
    ensures Uncapped(s, 1) == s.base && Uncapped(s, n + 1) == s.factor * Uncapped(s, n)
  {
    var p := Pow(s.factor, n - 1);
    assert Pow(s.factor, n) == s.factor * p;
    assert s.base * (s.factor * p) == s.factor * (s.base * p);
  }

  /** A retry varies when its uncapped backoff exceeds the minimum and neither cap is at the minimum. */
  lemma VariesIff(s: RandomExponential, n: nat)
    requires Valid(s)
    ensures Upper(s, n) > s.minimum
       <==> Uncapped(s, n) > s.minimum && s.minimum < (if s.maximum.Some? then s.maximum.value else MAX_SLEEP_SECONDS)
  {
    if s.base == 0.0 {
      assert Uncapped(s, n) == 0.0;
    }
  }

  /** The diagnostic says "can vary" exactly when some reachable retry varies, unless the minimum is
      the operational ceiling itself, no maximum is set, and the settings let the backoff exceed it. */
  lemma CheckIsExactIff(s: RandomExponential, retries: Option<nat>)
    requires Valid(s)
    ensures (CanVary(s, retries) <==> SomeRetryVaries(s, retries))
       <==> s.minimum < MAX_SLEEP_SECONDS || s.maximum.Some? || !LargestExceeds(s, retries, MAX_SLEEP_SECONDS)
  {
    hide LargestExceeds, CanVary, Upper, Uncapped;
    GrowsPastIff(s, retries, MAX_SLEEP_SECONDS);
    CanVaryIffGrowsPastMinimum(s, retries);
    forall n ensures Upper(s, n) > s.minimum
       <==> Uncapped(s, n) > s.minimum && s.minimum < (if s.maximum.Some? then s.maximum.value else MAX_SLEEP_SECONDS)
    {
      VariesIff(s, n);
    }
  }

  /** An input in that corner: every draw is the ceiling, and the diagnostic still reports variation. */
  lemma CheckIsWrongAtTheCeiling()
    ensures var s := RandomExponential(100_000.0, 2.0, MAX_SLEEP_SECONDS, None);
            Valid(s) && CanVary(s, Some(1)) && !SomeRetryVaries(s, Some(1))
  {
    var s := RandomExponential(100_000.0, 2.0, MAX_SLEEP_SECONDS, None);
    forall n: nat ensures Upper(s, n) == s.minimum {
      assert s.minimum <= Upper(s, n) <= MAX_SLEEP_SECONDS;
    }
  }
}
