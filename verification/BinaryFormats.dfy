/** Binary floating-point formats, and what their rounding does to the budget: two legality tests
that disagree at decimal times, and a count that never ends. */
module BinaryFormats {
  import opened RollingWindow
  import opened LegalityTests
  import opened Rounding

  // ---------------------------------------------------------------- the format

  /** Value number `i` of the format with `half` significands per binade, in units of its least
      positive value: whole units up to two binades, and then twice the value one binade below
      (section 3.3 of IEEE 754-2019, without a largest exponent). Values below zero are only ever
      compared with values that are not, and stay whole units. */
  function Value(half: nat, i: int): real
    requires half > 0
    decreases if i < 2 * half then 0 else i
  {
    if i < 2 * half then i as real else 2.0 * Value(half, i - half)
  }

  /** The nearest whole number, and of two the even one. */
  function Nearest(x: real): int {
    var low := x.Floor;
    var part := x - low as real;
    if part < 0.5 || (part == 0.5 && low % 2 == 0) then low else low + 1
  }

  /** The number of the nearest value, ties to even (section 4.3.1). */
  function Round(half: nat, x: real): int
    requires half > 0
    decreases if x < (2 * half) as real then 0 else x.Floor
  {
    if x < (2 * half) as real then Nearest(x) else half + Round(half, x / 2.0)
  }

  function Binary(half: nat): Format
    requires half > 0
  {
    Format(i => Value(half, i), x => Round(half, x))
  }

  // ---------------------------------------------------------------- it is a format

  lemma GapOfBinade(half: nat, i: int)
    requires half > 0
    ensures i < 2 * half ==> Value(half, i + 1) - Value(half, i) == 1.0
    ensures i >= 2 * half ==>
        Value(half, i + 1) - Value(half, i) == 2.0 * (Value(half, i - half + 1) - Value(half, i - half))
  {
    if i == 2 * half - 1 {
      assert Value(half, half) == half as real;
    }
  }

  lemma {:induction false} GapAtLeastOne(half: nat, i: int)
    requires half > 0
    ensures Value(half, i + 1) - Value(half, i) >= 1.0
    decreases if i < 2 * half then 0 else i
  {
    GapOfBinade(half, i);
    if i >= 2 * half {
      GapAtLeastOne(half, i - half);
    }
  }

  lemma {:induction false} ValuesIncrease(half: nat, i: int, j: int)
    requires half > 0 && i < j
    ensures Value(half, i) < Value(half, j)
    decreases j - i
  {
    hide Value;
    GapAtLeastOne(half, j - 1);
    if i < j - 1 {
      ValuesIncrease(half, i, j - 1);
    }
  }

  lemma {:induction false} GapsWiden(half: nat, i: int, j: int)
    requires half > 0 && i <= j
    ensures Value(half, i + 1) - Value(half, i) <= Value(half, j + 1) - Value(half, j)
    decreases if j < 2 * half then 0 else j
  {
    hide Value;
    GapOfBinade(half, i);
    GapOfBinade(half, j);
    if j >= 2 * half {
      if i >= 2 * half {
        GapsWiden(half, i - half, j - half);
      } else {
        GapAtLeastOne(half, j);
      }
    }
  }

  lemma NearestIsNearest(x: real, i: int)
    ensures Distance(Nearest(x) as real, x) <= Distance(i as real, x)
    ensures x.Floor <= Nearest(x) <= x.Floor + 1
  {
    var low := x.Floor;
    if i <= low {
      assert i as real <= low as real;
    } else {
      assert i as real >= low as real + 1.0;
    }
  }

  lemma {:induction false} RoundNotBelow(half: nat, x: real)
    requires half > 0 && x >= half as real
    ensures Round(half, x) >= half
    decreases if x < (2 * half) as real then 0 else x.Floor
  {
    if x < (2 * half) as real {
      NearestIsNearest(x, 0);
      assert x.Floor >= half;
    } else {
      RoundNotBelow(half, x / 2.0);
    }
  }

  lemma RoundInLowBinades(half: nat, x: real, i: int)
    requires half > 0 && x < (2 * half) as real
    ensures Distance(Value(half, Nearest(x)), x) <= Distance(Value(half, i), x)
  {
    NearestIsNearest(x, i);
    NearestIsNearest(x, 2 * half);
    GapOfBinade(half, 2 * half - 1);
    assert Value(half, 2 * half) == (2 * half) as real;
    assert x.Floor < 2 * half;
    assert Value(half, Nearest(x)) == Nearest(x) as real;
    if i > 2 * half {
      ValuesIncrease(half, 2 * half, i);
    }
  }

  lemma LowValues(half: nat, i: int)
    requires half > 0 && i < 2 * half
    ensures Value(half, i) == i as real < Value(half, 2 * half) == (2 * half) as real
  {
    assert Value(half, half) == half as real;
  }

  /** Nearest to half of `x`, one binade below, is nearest to `x`. */
  lemma RoundInHighBinades(half: nat, x: real, r: int, j: int)
    requires half > 0 && r >= half && j >= 2 * half
    requires Distance(Value(half, r), x / 2.0) <= Distance(Value(half, j - half), x / 2.0)
    ensures Distance(Value(half, half + r), x) <= Distance(Value(half, j), x)
  {
    assert Value(half, j) == 2.0 * Value(half, j - half) && Value(half, half + r) == 2.0 * Value(half, r);
  }

  lemma {:induction false} RoundIsNearest(half: nat, x: real, i: int)
    requires half > 0
    ensures Distance(Value(half, Round(half, x)), x) <= Distance(Value(half, i), x)
    decreases if x < (2 * half) as real then 0 else x.Floor
  {
    hide Value, Nearest;
    if x < (2 * half) as real {
      RoundInLowBinades(half, x, i);
    } else {
      var j := if i < 2 * half then 2 * half else i;
      RoundNotBelow(half, x / 2.0);
      RoundIsNearest(half, x / 2.0, j - half);
      RoundInHighBinades(half, x, Round(half, x / 2.0), j);
      if i < 2 * half {
        LowValues(half, i);
      }
    }
  }

  lemma BinaryIsValid(half: nat)
    requires half > 0
    ensures ValidFormat(Binary(half))
  {
    hide Value, Round, Distance;
    var fmt := Binary(half);
    forall i, j | i < j ensures fmt.value(i) < fmt.value(j) {
      ValuesIncrease(half, i, j);
    }
    forall i, j | -1 <= i <= j ensures Gap(fmt, i) <= Gap(fmt, j) {
      GapsWiden(half, i, j);
    }
    forall x, i ensures Distance(fmt.value(fmt.round(x)), x) <= Distance(fmt.value(i), x) {
      RoundIsNearest(half, x, i);
    }
  }

  // ---------------------------------------------------------------- scaling

  /** `x` times 2^n. */
  function Scaled(n: nat, x: real): real {
    if n == 0 then x else 2.0 * Scaled(n - 1, x)
  }

  /** How far scaling by 2^n moves the number of a value: `n` binades. */
  function Binades(half: nat, n: nat): nat {
    if n == 0 then 0 else half + Binades(half, n - 1)
  }

  lemma {:induction false} ScaledSum(n: nat, x: real, y: real)
    ensures Scaled(n, x + y) == Scaled(n, x) + Scaled(n, y)
  {
    if n > 0 {
      ScaledSum(n - 1, x, y);
    }
  }

  lemma {:induction false} ScaledSize(n: nat, x: real)
    ensures x >= 0.0 ==> Scaled(n, x) >= x
    ensures x <= 0.0 ==> Scaled(n, x) <= x
  {
    if n > 0 {
      ScaledSize(n - 1, x);
    }
  }

  /** Rounding is the same in every binade. */
  lemma {:induction false} RoundShifts(half: nat, n: nat, x: real)
    requires half > 0 && x >= half as real
    ensures Round(half, Scaled(n, x)) == Binades(half, n) + Round(half, x)
  {
    if n > 0 {
      RoundShifts(half, n - 1, x);
      ScaledSize(n - 1, x);
      RoundTwice(half, Scaled(n - 1, x));
    }
  }

  lemma RoundTwice(half: nat, x: real)
    requires half > 0 && x >= half as real
    ensures Round(half, 2.0 * x) == half + Round(half, x)
  {
    assert 2.0 * x >= (2 * half) as real && (2.0 * x) / 2.0 == x;
  }

  lemma {:induction false} ValueShifts(half: nat, n: nat, i: int)
    requires half > 0 && i >= half
    ensures Value(half, Binades(half, n) + i) == Scaled(n, Value(half, i))
  {
    if n > 0 {
      ValueShifts(half, n - 1, i);
      assert Binades(half, n) + i - half == Binades(half, n - 1) + i;
    }
  }

  // ---------------------------------------------------------------- decimal times

  /** binary64 has 2^52 significands per binade, and its least positive value is 2^-1074: 1018 binades
      below 2^-56, the unit of the last place of 0.1. */
  const HALF: nat := 0x10_0000_0000_0000
  const BINADES: nat := 1018
  const LAST_PLACES_PER_SECOND: real := 72_057_594_037_927_936.0

  /** The number of the double nearest to a time in seconds. */
  function Double(seconds: real): int {
    Round(HALF, Scaled(BINADES, seconds * LAST_PLACES_PER_SECOND))
  }

  /** The budget arithmetic of doubles with a period of so many seconds, itself a double. */
  function Doubles(per: real): Arith {
    Rounded(Binary(HALF), Value(HALF, Double(per)))
  }

  /** Doubles of some times, as whole last places. */
  lemma TenthsOfASecond()
    ensures Double(0.1) == Binades(HALF, BINADES) + 7_205_759_403_792_794
    ensures Double(0.5) == Binades(HALF, BINADES) + 4 * HALF
    ensures Value(HALF, Double(0.1)) == Scaled(BINADES, 7_205_759_403_792_794.0)
    ensures Value(HALF, Double(0.5)) == Scaled(BINADES, 36_028_797_018_963_968.0)
    ensures Value(HALF, Double(0.4)) == Scaled(BINADES, 28_823_037_615_171_176.0)
  {
    RoundedTenths();
    ValuedTenths();
    hide Scaled, Value, Round, Binades;
    RoundShifts(HALF, BINADES, 7_205_759_403_792_793.6);
    RoundShifts(HALF, BINADES, 28_823_037_615_171_174.4);
    RoundShifts(HALF, BINADES, 36_028_797_018_963_968.0);
    ValueShifts(HALF, BINADES, 7_205_759_403_792_794);
    ValueShifts(HALF, BINADES, 16_212_958_658_533_786);
    ValueShifts(HALF, BINADES, 4 * HALF);
  }

  lemma RoundedTenths()
    ensures Round(HALF, 7_205_759_403_792_793.6) == 7_205_759_403_792_794
    ensures Round(HALF, 28_823_037_615_171_174.4) == 16_212_958_658_533_786
    ensures Round(HALF, 36_028_797_018_963_968.0) == 4 * HALF
  {
    assert Round(HALF, 36_028_797_018_963_968.0) == HALF + Round(HALF, 18_014_398_509_481_984.0);
    assert Round(HALF, 18_014_398_509_481_984.0) == HALF + Round(HALF, 9_007_199_254_740_992.0);
    assert Round(HALF, 9_007_199_254_740_992.0) == HALF + Round(HALF, 4_503_599_627_370_496.0);
    assert Round(HALF, 28_823_037_615_171_174.4) == HALF + Round(HALF, 14_411_518_807_585_587.2);
    assert Round(HALF, 14_411_518_807_585_587.2) == HALF + Round(HALF, 7_205_759_403_792_793.6);
  }

  lemma ValuedTenths()
    ensures Value(HALF, 7_205_759_403_792_794) == 7_205_759_403_792_794.0
    ensures Value(HALF, 16_212_958_658_533_786) == 28_823_037_615_171_176.0
    ensures Value(HALF, 4 * HALF) == 36_028_797_018_963_968.0
  {
    assert Value(HALF, 16_212_958_658_533_786) == 2.0 * Value(HALF, 11_709_359_031_163_290);
    assert Value(HALF, 11_709_359_031_163_290) == 2.0 * Value(HALF, 7_205_759_403_792_794);
    assert Value(HALF, 4 * HALF) == 2.0 * Value(HALF, 3 * HALF);
    assert Value(HALF, 3 * HALF) == 2.0 * Value(HALF, 2 * HALF);
    assert Value(HALF, 2 * HALF) == 2.0 * Value(HALF, HALF);
  }

  /** 0.1 + 0.4 is 0.5, but 0.5 - 0.4 is less than 0.1. */
  lemma RoundedSumIsNotTheExit()
    ensures var ar := Doubles(0.4);
            && ar.add(Double(0.1)) == Double(0.5) && ar.sub(Double(0.5)) == Double(0.1) - 2
            && ar.sub(Double(0.1)) < Double(0.1)
  {
    hide Scaled, Value, Double, Binades;
    TenthsOfASecond();
    SumOfTenths();
    RoundShifts(HALF, BINADES, 36_028_797_018_963_970.0);
    RoundShifts(HALF, BINADES, 7_205_759_403_792_792.0);
    ScaledSum(BINADES, 7_205_759_403_792_794.0, 28_823_037_615_171_176.0);
    ScaledSum(BINADES, 7_205_759_403_792_792.0, 28_823_037_615_171_176.0);
    ScaledSum(BINADES, -21_617_278_211_378_382.0, 28_823_037_615_171_176.0);
    ScaledSize(BINADES, -21_617_278_211_378_382.0);
    NearestIsNearest(Scaled(BINADES, -21_617_278_211_378_382.0), 0);
  }

  lemma SumOfTenths()
    ensures Round(HALF, 36_028_797_018_963_970.0) == 4 * HALF
    ensures Round(HALF, 7_205_759_403_792_792.0) == 7_205_759_403_792_792
  {
    assert Round(HALF, 36_028_797_018_963_970.0) == HALF + Round(HALF, 18_014_398_509_481_985.0);
    assert Round(HALF, 18_014_398_509_481_985.0) == HALF + Round(HALF, 9_007_199_254_740_992.5);
    assert Round(HALF, 9_007_199_254_740_992.5) == HALF + Round(HALF, 4_503_599_627_370_496.25);
  }

  lemma DoublesAreSound(per: real)
    requires Value(HALF, Double(per)) > 0.0
    ensures Sound(Doubles(per))
  {
    hide Value, Double;
    BinaryIsValid(HALF);
    NearestRoundingIsSound(Binary(HALF), Value(HALF, Double(per)));
  }

  /** With a period of 0.4 seconds, capacity 1 and one reservation at 0.5, the time 0.1 is illegal, and
      the slot search moves on; the test by window ends lets it pass, and counts one slot available. */
  lemma TestsDisagree()
    ensures var (ar, t, w) := (Doubles(0.4), Double(0.1), Double(0.5));
            && 0 <= t < w && Sound(ar) && Sorted([w]) && WithinCapacity(ar, 1, [w])
            && ar.add(t) < FirstSlotAfterWindow(ar, t) && IsLater(ar, t, FirstEnd(ar, t)) && ar.sub(t) < t
            && LegalByEnds(ar, 1, [w], t) && !LegalSlot(ar, 1, [w], t)
            && Available(ar, 1, [w], t) == 1 && Earliest(ar, 1, [w], t) > t
  {
    hide Doubles, Double, Scaled, Value, Binades;
    var ar, t, w := Doubles(0.4), Double(0.1), Double(0.5);
    TenthsOfASecond();
    ScaledSize(BINADES, 28_823_037_615_171_176.0);
    DoublesAreSound(0.4);
    RoundedSumIsNotTheExit();
    OneBeforeTheExit(ar, t, w);
  }

  lemma ExitIsLater(ar: Arith, t: nat, w: nat)
    requires Sound(ar) && ar.add(t) == w && t < w && ar.sub(w) < t
    ensures ar.add(t) < FirstSlotAfterWindow(ar, t) && IsLater(ar, t, FirstEnd(ar, t))
  {
  }

  /** Whenever the rounded sum stops short of the exit point, a reservation at it tells the tests apart. */
  lemma OneBeforeTheExit(ar: Arith, t: nat, w: nat)
    requires Sound(ar) && ar.add(t) == w && t < w && ar.sub(w) < t && ar.sub(t) < t
    ensures Sorted([w]) && WithinCapacity(ar, 1, [w])
    ensures ar.add(t) < FirstSlotAfterWindow(ar, t) && IsLater(ar, t, FirstEnd(ar, t))
    ensures LegalByEnds(ar, 1, [w], t) && !LegalSlot(ar, 1, [w], t)
    ensures Available(ar, 1, [w], t) == 1 && Earliest(ar, 1, [w], t) > t
  {
    hide Sound, FirstSlotAfterWindow, FirstEnd, Earliest, Available;
    ExitIsLater(ar, t, w);
    CountOfOne(ar, w);
    assert InWindow(ar, t, w) && InWindow(ar, w, w);
    assert LegalByEnds(ar, 1, [w], t) && !LegalSlot(ar, 1, [w], t);
    OneIsAvailable(ar, t, w);
  }

  lemma CountOfOne(ar: Arith, w: nat)
    ensures forall x :: Count(ar, [w], x) == if InWindow(ar, w, x) then 1 else 0
  {
    assert [w][1..] == [];
  }

  lemma OneIsAvailable(ar: Arith, t: nat, w: nat)
    requires ar.sub(t) < t && LegalByEnds(ar, 1, [w], t)
    ensures Available(ar, 1, [w], t) == 1
  {
    CountAppended(ar, [w], t, t);
    assert InWindow(ar, t, t) && !LegalByEnds(ar, 1, [w] + [t], t);
  }

  // ---------------------------------------------------------------- lost periods

  lemma NotAbove(fmt: Format, i: int, j: int)
    requires Increasing(fmt)
    ensures i <= j ==> fmt.value(i) <= fmt.value(j)
  {
  }

  /** Where the gap below a time is more than twice the period, subtracting it changes nothing. */
  lemma PeriodIsLost(fmt: Format, per: real, w: int)
    requires ValidFormat(fmt) && per > 0.0 && Gap(fmt, w - 1) > 2.0 * per
    ensures Rounded(fmt, per).sub(w) == w
  {
    var x := fmt.value(w) - per;
    var r := fmt.round(x);
    assert Distance(fmt.value(r), x) <= Distance(fmt.value(w), x);
    NotAbove(fmt, r, w - 1);
    assert r > w ==> fmt.value(r) > fmt.value(w);
  }

  lemma {:induction false} GapGrows(half: nat, n: nat) returns (i: nat)
    requires half > 0
    ensures i >= half && Value(half, i + 1) - Value(half, i) >= n as real + 1.0
  {
    hide Value;
    if n == 0 {
      i := half;
      GapAtLeastOne(half, i);
    } else {
      var before := GapGrows(half, n - 1);
      i := before + half;
      GapOfBinade(half, i);
    }
  }

  /** In every binary format and for every period there are clock readings at which the count of
      available slots does not end for every schedule. */
  lemma CountMayNotEnd(half: nat, per: real, capacity: nat) returns (t: nat)
    requires half > 0 && per > 0.0 && capacity > 0
    ensures Sound(Rounded(Binary(half), per)) && Rounded(Binary(half), per).sub(t) == t
    ensures exists times: seq<nat> :: !CountingEnds(Rounded(Binary(half), per), capacity, times, t)
  {
    hide Value, Round, Sound, CountingEnds;
    BinaryIsValid(half);
    var i := GapGrows(half, (2.0 * per).Floor + 1);
    t := i + 1;
    PeriodIsLost(Binary(half), per, t);
    NearestRoundingIsSound(Binary(half), per);
    AvailableTerminatesIff(Rounded(Binary(half), per), capacity, t);
  }
}
