/** Stop strategies: trees of attempt limits and time limits, and what the static analyses of
the library say about them. */
module Stops {

  datatype Stop =
    | AfterAttempt(maximum: nat)
    | AfterDelay(limit: nat)
    | Forever
    | Any(strategies: seq<Stop>)
    | All(strategies: seq<Stop>)

  /** What the constructors accept: at least one attempt, and composites that are not empty. */
  predicate WellFormed(s: Stop) {
    match s
    case AfterAttempt(maximum) => maximum > 0
    case AfterDelay(_) => true
    case Forever => true
    case Any(ss) => ss != [] && forall i :: 0 <= i < |ss| ==> WellFormed(ss[i])
    case All(ss) => ss != [] && forall i :: 0 <= i < |ss| ==> WellFormed(ss[i])
  }

  /** Stop after this attempt, with this much time elapsed? */
  predicate ShouldStop(s: Stop, attempt: nat, elapsed: int) {
    match s
    case AfterAttempt(maximum) => attempt >= maximum
    case AfterDelay(limit) => elapsed >= limit
    case Forever => false
    case Any(ss) => exists i :: 0 <= i < |ss| && ShouldStop(ss[i], attempt, elapsed)
    case All(ss) => forall i :: 0 <= i < |ss| ==> ShouldStop(ss[i], attempt, elapsed)
  }

  // ---------------------------------------------------------------- the analyses

  predicate IsInfinite(s: Stop) {
    match s
    case Forever => true
    case AfterAttempt(_) => false
    case AfterDelay(_) => false
    case All(ss) => exists i :: 0 <= i < |ss| && IsInfinite(ss[i])
    case Any(ss) => forall i :: 0 <= i < |ss| ==> IsInfinite(ss[i])
  }

  predicate StopsAfterFirstAttempt(s: Stop) {
    match s
    case AfterAttempt(maximum) => maximum <= 1
    case AfterDelay(limit) => limit <= 0
    case Forever => false
    case Any(ss) => exists i :: 0 <= i < |ss| && StopsAfterFirstAttempt(ss[i])
    case All(ss) => forall i :: 0 <= i < |ss| ==> StopsAfterFirstAttempt(ss[i])
  }

  datatype Limit = Unknown | Known(n: nat)

  function Lower(a: Limit, b: Limit): Limit {
    if a.Unknown? then b else if b.Unknown? || a.n <= b.n then a else b
  }

  function Higher(a: Limit, b: Limit): Limit {
    if a.Unknown? || b.Unknown? then Unknown else if a.n >= b.n then a else b
  }

  /** The least of the known limits. */
  function LeastKnown(limits: seq<Limit>): Limit {
    if limits == [] then Unknown else Lower(limits[0], LeastKnown(limits[1..]))
  }

  /** The greatest limit, if all are known. */
  function GreatestIfAllKnown(limits: seq<Limit>): Limit {
    if limits == [] then Known(0) else Higher(limits[0], GreatestIfAllKnown(limits[1..]))
  }

  function AttemptLimits(ss: seq<Stop>): (limits: seq<Limit>)
    ensures |limits| == |ss| && forall i :: 0 <= i < |ss| ==> limits[i] == AttemptLimit(ss[i])
  {
    if ss == [] then [] else [AttemptLimit(ss[0])] + AttemptLimits(ss[1..])
  }

  function AttemptLimit(s: Stop): Limit {
    match s
    case AfterAttempt(maximum) => Known(maximum)
    case Forever => Unknown
    case AfterDelay(_) => Unknown
    case Any(ss) => LeastKnown(AttemptLimits(ss))
    case All(ss) =>
      if exists i :: 0 <= i < |ss| && IsInfinite(ss[i]) then Unknown
      else GreatestIfAllKnown(AttemptLimits(ss))
  }

  /** `unbounded` and `partial` say why no maximum is given. */
  datatype Estimate = Estimate(maximum: Limit, unbounded: bool, partial: bool)

  function Maxima(estimates: seq<Estimate>, onlyBounded: bool): (limits: seq<Limit>)
    ensures |limits| == |estimates|
    ensures forall i :: 0 <= i < |estimates| ==>
              limits[i] == if onlyBounded && estimates[i].unbounded then Unknown else estimates[i].maximum
  {
    seq(|estimates|, i requires 0 <= i < |estimates| =>
      if onlyBounded && estimates[i].unbounded then Unknown else estimates[i].maximum)
  }

  function EstimateEach(ss: seq<Stop>): (estimates: seq<Estimate>)
    ensures |estimates| == |ss| && forall i :: 0 <= i < |ss| ==> estimates[i] == EstimateAttempts(ss[i])
  {
    if ss == [] then [] else [EstimateAttempts(ss[0])] + EstimateEach(ss[1..])
  }

  function EstimateAttempts(s: Stop): Estimate {
    match s
    case AfterAttempt(maximum) => Estimate(Known(maximum), false, false)
    case Forever => Estimate(Unknown, true, false)
    case AfterDelay(_) => Estimate(Unknown, false, true)
    case Any(ss) =>
      var estimates := EstimateEach(ss);
      var bounded := LeastKnown(Maxima(estimates, true));
      if bounded.Known? then Estimate(bounded, false, false)
      else if forall i :: 0 <= i < |estimates| ==> estimates[i].unbounded then Estimate(Unknown, true, false)
      else Estimate(Unknown, false, true)
    case All(ss) =>
      var estimates := EstimateEach(ss);
      if exists i :: 0 <= i < |estimates| && estimates[i].unbounded then Estimate(Unknown, true, false)
      else
        var greatest := GreatestIfAllKnown(Maxima(estimates, false));
        if greatest.Known? then Estimate(greatest, false, false) else Estimate(Unknown, false, true)
  }

  /** The worst-case number of calls of several executions, when the attempts are bounded. */
  function MaximumTotalCalls(s: Stop, executions: nat): Limit
    requires executions > 0
  {
    match EstimateAttempts(s).maximum
    case Unknown => Unknown
    case Known(n) => Known(executions + executions * (if n >= 1 then n - 1 else 0))
  }

  // ---------------------------------------------------------------- the analyses are exact

  lemma {:induction false} StopIsMonotone(s: Stop, a: nat, e: int, a': nat, e': int)
    requires a <= a' && e <= e' && ShouldStop(s, a, e)
    ensures ShouldStop(s, a', e')
  {
    match s
    case Any(ss) =>
      var i :| 0 <= i < |ss| && ShouldStop(ss[i], a, e);
      StopIsMonotone(ss[i], a, e, a', e');
    case All(ss) =>
      forall i | 0 <= i < |ss| ensures ShouldStop(ss[i], a', e') {
        StopIsMonotone(ss[i], a, e, a', e');
      }
    case _ =>
  }

  /** A point at which a strategy that is not infinite stops. */
  lemma {:induction false} FiniteStops(s: Stop) returns (a: nat, e: nat)
    requires WellFormed(s) && !IsInfinite(s)
    ensures ShouldStop(s, a, e)
  {
    match s
    case AfterAttempt(maximum) => a, e := maximum, 0;
    case AfterDelay(limit) => a, e := 0, limit;
    case Any(ss) =>
      var i :| 0 <= i < |ss| && !IsInfinite(ss[i]);
      a, e := FiniteStops(ss[i]);
    case All(ss) =>
      a, e := 0, 0;
      for i := 0 to |ss|
        invariant forall j :: 0 <= j < i ==> ShouldStop(ss[j], a, e)
      {
        var a', e' := FiniteStops(ss[i]);
        var a'', e'' := if a' > a then a' else a, if e' > e then e' else e;
        forall j | 0 <= j <= i ensures ShouldStop(ss[j], a'', e'') {
          if j < i {
            StopIsMonotone(ss[j], a, e, a'', e'');
          } else {
            StopIsMonotone(ss[j], a', e', a'', e'');
          }
        }
        a, e := a'', e'';
      }
  }

  lemma {:induction false} InfiniteNeverStops(s: Stop, a: nat, e: int)
    requires WellFormed(s) && IsInfinite(s)
    ensures !ShouldStop(s, a, e)
  {
    match s
    case Any(ss) =>
      forall i | 0 <= i < |ss| ensures !ShouldStop(ss[i], a, e) {
        InfiniteNeverStops(ss[i], a, e);
      }
    case All(ss) =>
      var i :| 0 <= i < |ss| && IsInfinite(ss[i]);
      InfiniteNeverStops(ss[i], a, e);
    case _ =>
  }

  /** "Infinite" means that no attempt at any time stops. */
  lemma InfiniteIffNeverStops(s: Stop)
    requires WellFormed(s)
    ensures IsInfinite(s) <==> forall a: nat, e: int :: !ShouldStop(s, a, e)
  {
    if IsInfinite(s) {
      forall a: nat, e: int ensures !ShouldStop(s, a, e) {
        InfiniteNeverStops(s, a, e);
      }
    } else {
      var a, e := FiniteStops(s);
      assert ShouldStop(s, a, e);
    }
  }

  lemma {:induction false} FirstAttemptAtOnce(s: Stop)
    ensures StopsAfterFirstAttempt(s) <==> ShouldStop(s, 1, 0)
  {
    match s
    case Any(ss) =>
      forall i | 0 <= i < |ss| ensures StopsAfterFirstAttempt(ss[i]) <==> ShouldStop(ss[i], 1, 0) {
        FirstAttemptAtOnce(ss[i]);
      }
    case All(ss) =>
      forall i | 0 <= i < |ss| ensures StopsAfterFirstAttempt(ss[i]) <==> ShouldStop(ss[i], 1, 0) {
        FirstAttemptAtOnce(ss[i]);
      }
    case _ =>
  }

  /** "Stops after the first attempt" means that attempt 1 stops however fast it was. */
  lemma FirstAttemptIffAlwaysStops(s: Stop)
    ensures StopsAfterFirstAttempt(s) <==> forall e: nat :: ShouldStop(s, 1, e)
  {
    FirstAttemptAtOnce(s);
    forall e: nat | StopsAfterFirstAttempt(s) ensures ShouldStop(s, 1, e) {
      StopIsMonotone(s, 1, 0, 1, e);
    }
    assert (forall e: nat :: ShouldStop(s, 1, e)) ==> ShouldStop(s, 1, 0);
  }

  predicate PositiveTimeLimits(s: Stop) {
    match s
    case AfterDelay(limit) => limit > 0
    case Any(ss) => forall i :: 0 <= i < |ss| ==> PositiveTimeLimits(ss[i])
    case All(ss) => forall i :: 0 <= i < |ss| ==> PositiveTimeLimits(ss[i])
    case _ => true
  }

  /** `n` attempts reach the limit. */
  predicate Reaches(n: int, limit: Limit) {
    limit.Known? && n >= limit.n
  }

  lemma {:induction false} ReachesLeast(limits: seq<Limit>, n: int)
    ensures Reaches(n, LeastKnown(limits)) <==> exists i :: 0 <= i < |limits| && Reaches(n, limits[i])
  {
    if limits != [] {
      ReachesLeast(limits[1..], n);
      if i :| 0 <= i < |limits| && Reaches(n, limits[i]) {
        assert i > 0 ==> limits[1..][i - 1] == limits[i];
      }
      if i :| 0 <= i < |limits[1..]| && Reaches(n, limits[1..][i]) {
        assert limits[i + 1] == limits[1..][i];
      }
    }
  }

  lemma {:induction false} ReachesGreatest(limits: seq<Limit>, n: nat)
    ensures Reaches(n, GreatestIfAllKnown(limits)) <==> forall i :: 0 <= i < |limits| ==> Reaches(n, limits[i])
  {
    if limits != [] {
      ReachesGreatest(limits[1..], n);
      assert (forall i :: 0 <= i < |limits| ==> Reaches(n, limits[i]))
        <==> Reaches(n, limits[0]) && forall i :: 0 <= i < |limits[1..]| ==> Reaches(n, limits[1..][i]);
    }
  }

  /** From a known limit on, every attempt stops, whatever the time. */
  lemma {:induction false} StopsFromLimit(s: Stop, n: nat, e: int)
    requires Reaches(n, AttemptLimit(s))
    ensures ShouldStop(s, n, e)
  {
    match s
    case AfterAttempt(_) =>
    case Any(ss) =>
      ReachesLeast(AttemptLimits(ss), n);
      var i :| 0 <= i < |ss| && Reaches(n, AttemptLimits(ss)[i]);
      StopsFromLimit(ss[i], n, e);
    case All(ss) =>
      ReachesGreatest(AttemptLimits(ss), n);
      forall i | 0 <= i < |ss| ensures ShouldStop(ss[i], n, e) {
        assert Reaches(n, AttemptLimits(ss)[i]);
        StopsFromLimit(ss[i], n, e);
      }
  }

  /** With positive time limits only, attempts stop at zero elapsed time exactly from the known limit
      on: the limit is the least such attempt, and without one there is none. */
  lemma {:induction false} LimitIsLeast(s: Stop, n: nat)
    requires WellFormed(s) && PositiveTimeLimits(s)
    ensures ShouldStop(s, n, 0) <==> Reaches(n, AttemptLimit(s))
  {
    match s
    case Any(ss) =>
      forall i | 0 <= i < |ss| ensures ShouldStop(ss[i], n, 0) <==> Reaches(n, AttemptLimits(ss)[i]) {
        LimitIsLeast(ss[i], n);
      }
      ReachesLeast(AttemptLimits(ss), n);
    case All(ss) =>
      forall i | 0 <= i < |ss| ensures ShouldStop(ss[i], n, 0) <==> Reaches(n, AttemptLimits(ss)[i]) {
        LimitIsLeast(ss[i], n);
      }
      ReachesGreatest(AttemptLimits(ss), n);
      if i :| 0 <= i < |ss| && IsInfinite(ss[i]) {
        InfiniteNeverStops(ss[i], n, 0);
      }
    case _ =>
  }

  /** The load estimate and the two diagnostics are one analysis: the same maximum, unbounded
      exactly when infinite, and partial exactly when neither. */
  lemma {:induction false} EstimateAgrees(s: Stop)
    requires WellFormed(s)
    ensures EstimateAttempts(s) == Estimate(AttemptLimit(s), IsInfinite(s), AttemptLimit(s).Unknown? && !IsInfinite(s))
    ensures IsInfinite(s) ==> AttemptLimit(s).Unknown?
  {
    match s
    case Any(ss) =>
      forall i | 0 <= i < |ss|
        ensures EstimateEach(ss)[i] == Estimate(AttemptLimit(ss[i]), IsInfinite(ss[i]),
                                                AttemptLimit(ss[i]).Unknown? && !IsInfinite(ss[i]))
        ensures IsInfinite(ss[i]) ==> AttemptLimit(ss[i]).Unknown?
      {
        EstimateAgrees(ss[i]);
      }
      assert Maxima(EstimateEach(ss), true) == AttemptLimits(ss);
      AllUnknown(AttemptLimits(ss));
    case All(ss) =>
      forall i | 0 <= i < |ss|
        ensures EstimateEach(ss)[i] == Estimate(AttemptLimit(ss[i]), IsInfinite(ss[i]),
                                                AttemptLimit(ss[i]).Unknown? && !IsInfinite(ss[i]))
      {
        EstimateAgrees(ss[i]);
      }
      assert Maxima(EstimateEach(ss), false) == AttemptLimits(ss);
    case _ =>
  }

  lemma {:induction false} AllUnknown(limits: seq<Limit>)
    ensures LeastKnown(limits).Unknown? <==> forall i :: 0 <= i < |limits| ==> limits[i].Unknown?
  {
    if limits != [] {
      AllUnknown(limits[1..]);
      assert (forall i :: 0 <= i < |limits| ==> limits[i].Unknown?)
        <==> limits[0].Unknown? && forall i :: 0 <= i < |limits[1..]| ==> limits[1..][i].Unknown?;
    }
  }

  // ---------------------------------------------------------------- time limits

  function TimeLimits(ss: seq<Stop>): (limits: seq<Limit>)
    ensures |limits| == |ss| && forall i :: 0 <= i < |ss| ==> limits[i] == TimeLimit(ss[i])
  {
    if ss == [] then [] else [TimeLimit(ss[0])] + TimeLimits(ss[1..])
  }

  /** The deadline a tree imposes on its own, whatever the number of attempts. */
  function TimeLimit(s: Stop): Limit {
    match s
    case AfterDelay(limit) => Known(limit)
    case AfterAttempt(_) => Unknown
    case Forever => Unknown
    case Any(ss) => LeastKnown(TimeLimits(ss))
    case All(ss) => GreatestIfAllKnown(TimeLimits(ss))
  }

  /** The deadline is exact: before any attempt, the tree stops from the deadline on and not earlier. */
  lemma {:induction false} TimeLimitIsExact(s: Stop, e: nat)
    requires WellFormed(s)
    ensures ShouldStop(s, 0, e) <==> Reaches(e, TimeLimit(s))
  {
    match s
    case Any(ss) =>
      forall i | 0 <= i < |ss| ensures ShouldStop(ss[i], 0, e) <==> Reaches(e, TimeLimits(ss)[i]) {
        TimeLimitIsExact(ss[i], e);
      }
      ReachesLeast(TimeLimits(ss), e);
    case All(ss) =>
      forall i | 0 <= i < |ss| ensures ShouldStop(ss[i], 0, e) <==> Reaches(e, TimeLimits(ss)[i]) {
        TimeLimitIsExact(ss[i], e);
      }
      ReachesGreatest(TimeLimits(ss), e);
    case _ =>
  }
}
