/** The two instances of the budget arithmetic: exact whole ticks, and rounding to the
nearest value of a floating-point format. */
module Rounding {
  import opened RollingWindow

  // ---------------------------------------------------------------- exact ticks

  function Exact(per: nat): Arith {
    Arith(w => w - per, f => f + per)
  }

  lemma ExactIsSound(per: nat)
    ensures Sound(Exact(per))
    ensures forall f: nat :: FirstSlotAfterWindow(Exact(per), f) == f + per
  {
    forall f: nat ensures FirstSlotAfterWindow(Exact(per), f) == f + per {
      var c := FirstSlotAfterWindow(Exact(per), f);
      assert c <= f + per <==> f <= Exact(per).sub(f + per);
      assert c <= f + per - 1 <==> f <= Exact(per).sub(f + per - 1);
    }
  }

  // ---------------------------------------------------------------- floating point

  /** The values of a floating-point format in increasing order, number 0 being the value zero
      or the least time of interest, and a function that rounds to one of the nearest values. */
  datatype Format = Format(value: int -> real, round: real -> int)

  function Distance(x: real, y: real): real {
    if x <= y then y - x else x - y
  }

  ghost predicate Increasing(fmt: Format) {
    forall i, j :: i < j ==> fmt.value(i) < fmt.value(j)
  }

  /** Spacing does not shrink towards larger values, from the last negative value on. */
  ghost predicate Widening(fmt: Format) {
    forall i, j :: -1 <= i <= j ==> Gap(fmt, i) <= Gap(fmt, j)
  }

  /** Rounding is to nearest, with ties broken in any way. */
  ghost predicate ToNearest(fmt: Format) {
    forall x, i :: Distance(fmt.value(fmt.round(x)), x) <= Distance(fmt.value(i), x)
  }

  /** What IEEE 754 binary formats and their default rounding have in common (sections 3.3 and
      4.3.1 of IEEE 754-2019), without the largest finite value. */
  ghost predicate ValidFormat(fmt: Format) {
    Increasing(fmt) && Widening(fmt) && ToNearest(fmt)
  }

  function Gap(fmt: Format, i: int): real {
    fmt.value(i + 1) - fmt.value(i)
  }

  function Rounded(fmt: Format, per: real): Arith {
    Arith(w => fmt.round(fmt.value(w) - per), f => fmt.round(fmt.value(f) + per))
  }

  lemma RoundMonotone(fmt: Format, x: real, y: real)
    requires ValidFormat(fmt) && x <= y
    ensures x < y ==> fmt.round(x) <= fmt.round(y)
  {
    var a, b := fmt.round(x), fmt.round(y);
    assert Distance(fmt.value(a), x) <= Distance(fmt.value(b), x);
    assert Distance(fmt.value(b), y) <= Distance(fmt.value(a), y);
  }

  lemma RoundExact(fmt: Format, i: int)
    requires ValidFormat(fmt)
    ensures fmt.round(fmt.value(i)) == i
  {
    assert Distance(fmt.value(fmt.round(fmt.value(i))), fmt.value(i)) <= Distance(fmt.value(i), fmt.value(i));
  }

  /** A value rounded up to `i` lies in the upper half of the gap below `i`. */
  lemma RoundedUp(fmt: Format, x: real, i: int)
    requires ValidFormat(fmt) && i <= fmt.round(x)
    ensures fmt.value(i) - x <= Gap(fmt, i - 1) / 2.0
  {
    assert Distance(fmt.value(fmt.round(x)), x) <= Distance(fmt.value(i - 1), x);
  }

  /** One above the rounded sum, the window has left `f` behind. */
  lemma ExitWithinOneAbove(fmt: Format, per: real, f: int)
    requires ValidFormat(fmt) && per > 0.0
    ensures f <= Rounded(fmt, per).sub(Rounded(fmt, per).add(f) + 1)
  {
    var x := fmt.value(f) + per;
    var s := fmt.round(x);
    assert Distance(fmt.value(s), x) <= Distance(fmt.value(s + 1), x);
    assert fmt.value(s) < fmt.value(s + 1);
    RoundExact(fmt, f);
    RoundMonotone(fmt, fmt.value(f), fmt.value(s + 1) - per);
  }

  /** A time two values below the rounded sum is too far from the sum to round up to `f`. */
  lemma TwoBelowIsFar(fmt: Format, f: nat, s: int, x: real)
    requires Increasing(fmt) && Widening(fmt)
    requires f <= s && fmt.value(f) < x && fmt.value(s) - x <= Gap(fmt, s - 1) / 2.0
    ensures x - fmt.value(s - 2) > Gap(fmt, f - 1) / 2.0
  {
    assert fmt.value(s - 2) < fmt.value(s - 1) < fmt.value(s);
    if f < s {
      assert Gap(fmt, f - 1) <= Gap(fmt, s - 2);
    }
  }

  /** Two below the rounded sum, the window still holds `f`. */
  lemma ExitNotTwoBelow(fmt: Format, per: real, f: nat)
    requires ValidFormat(fmt) && per > 0.0
    ensures Rounded(fmt, per).sub(Rounded(fmt, per).add(f) - 2) < f
  {
    hide Increasing, Widening, ToNearest, Gap;
    var x := fmt.value(f) + per;
    var s := fmt.round(x);
    assert f <= s by {
      RoundExact(fmt, f);
      RoundMonotone(fmt, fmt.value(f), x);
    }
    RoundedUp(fmt, x, s);
    TwoBelowIsFar(fmt, f, s, x);
    var y := fmt.value(s - 2) - per;
    if f <= fmt.round(y) {
      RoundedUp(fmt, y, f);
    }
  }

  lemma SubMonotone(fmt: Format, per: real)
    requires ValidFormat(fmt)
    ensures forall a, b :: a <= b ==> Rounded(fmt, per).sub(a) <= Rounded(fmt, per).sub(b)
  {
    hide Widening, ToNearest;
    forall a, b | a <= b ensures Rounded(fmt, per).sub(a) <= Rounded(fmt, per).sub(b) {
      if a < b {
        RoundMonotone(fmt, fmt.value(a) - per, fmt.value(b) - per);
      }
    }
  }

  lemma SubNotLater(fmt: Format, per: real)
    requires ValidFormat(fmt) && per > 0.0
    ensures forall w :: Rounded(fmt, per).sub(w) <= w
  {
    hide Widening, ToNearest;
    forall w ensures Rounded(fmt, per).sub(w) <= w {
      RoundExact(fmt, w);
      RoundMonotone(fmt, fmt.value(w) - per, fmt.value(w));
    }
  }

  /** Rounding to nearest meets the contract the slot search relies on. */
  lemma NearestRoundingIsSound(fmt: Format, per: real)
    requires ValidFormat(fmt) && per > 0.0
    ensures Sound(Rounded(fmt, per))
  {
    hide ValidFormat, Rounded;
    var ar := Rounded(fmt, per);
    assert forall a, b :: a <= b ==> ar.sub(a) <= ar.sub(b) by { SubMonotone(fmt, per); }
    assert forall w :: ar.sub(w) <= w by { SubNotLater(fmt, per); }
    forall f: int | 0 <= f ensures ar.sub(ar.add(f) - 2) < f <= ar.sub(ar.add(f) + 1) {
      ExitWithinOneAbove(fmt, per, f);
      ExitNotTwoBelow(fmt, per, f);
    }
  }
}
