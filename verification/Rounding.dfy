/** Parsing rounds to nearest, ties to even. */
module Rounding {
  import opened Numbers

  /** r is a nearest value to x as far as y is concerned, and on a tie the one with the even mantissa: one
      that a bit less can hold. */
  ghost predicate IsAsNear(p: Precision, r: real, x: real, y: real) {
    && Gap(r, x) <= Gap(y, x)
    && (Gap(r, x) == Gap(y, x) && y != r && p >= 2 ==> Fits(p - 1, r))
  }

  /** No value the precision can hold is nearer than what parsing gives, and a tie goes to even. */
  lemma RoundIsNearest(p: Precision, x: real, y: real)
    requires Fits(p, y)
    ensures IsAsNear(p, Round(p, x), x, y)
  {
    if x == 0.0 {
    } else if x > 0.0 {
      PositiveIsNearest(p, x, y);
    } else {
      NegationFits(p, y);
      PositiveIsNearest(p, -x, -y);
      if p >= 2 && Fits(p - 1, RoundPositive(p, -x)) { NegationFits(p - 1, RoundPositive(p, -x)); }
    }
  }

  lemma NegationFits(p: Precision, y: real)
    requires Fits(p, y)
    ensures Fits(p, -y)
  {
    FitsIffRepresentable(p, y);
    RepresentableScales(p, y);
    FitsIffRepresentable(p, -y);
  }

  lemma {:induction false} PositiveIsNearest(p: Precision, x: real, y: real)
    requires x > 0.0 && Fits(p, y)
    ensures IsAsNear(p, RoundPositive(p, x), x, y)
    decreases Distance(p, x)
  {
    hide Fits, Low, High, Distance;
    if x < Low(p) {
      DoublingApproaches(p, x);
      DoubleFits(p, y);
      PositiveIsNearest(p, 2.0 * x, 2.0 * y);
      var r := RoundPositive(p, 2.0 * x);
      GapScales(r, 2.0 * x);
      GapScales(2.0 * y, 2.0 * x);
      if p >= 2 && Fits(p - 1, r) { HalfFits(p - 1, r); }
      assert (2.0 * y) / 2.0 == y && (2.0 * x) / 2.0 == x;
    } else if x >= High(p) {
      HalvingApproaches(p, x);
      HalfFits(p, y);
      PositiveIsNearest(p, x / 2.0, y / 2.0);
      var r := RoundPositive(p, x / 2.0);
      GapScales(r, x / 2.0);
      GapScales(y / 2.0, x / 2.0);
      if p >= 2 && Fits(p - 1, r) { DoubleFits(p - 1, r); }
      assert 2.0 * (y / 2.0) == y && 2.0 * (x / 2.0) == x;
    } else {
      InRangeIsNearest(p, x, y);
    }
  }

  /** Between Low and High the values of the precision are the integers. */
  lemma InRangeIsNearest(p: Precision, x: real, y: real)
    requires Low(p) <= x < High(p) && Fits(p, y)
    ensures IsAsNear(p, RoundHalfEven(x) as real, x, y)
  {
    var n := RoundHalfEven(x);
    HalfEvenKeepsBounds(p, x);
    assert Low(p) as int as real == Low(p) && High(p) as int as real == High(p);
    IntegerIsAsNear(x, Low(p) as int);
    IntegerIsAsNear(x, High(p) as int);
    if Low(p) <= y < High(p) {
      FitsIffRepresentable(p, y);
      MantissaRangeIsInteger(p, y);
      IntegerIsAsNear(x, y.Floor);
      if Gap(n as real, x) == Gap(y, x) && y != n as real && p >= 2 {
        EvenFits(p, n);
      }
    } else if y == High(p) && Gap(n as real, x) == Gap(y, x) && y != n as real && p >= 2 {
      EvenFits(p, n);
    }
  }

  lemma IntegerIsAsNear(x: real, k: int)
    ensures
      var n := RoundHalfEven(x);
      && Gap(n as real, x) <= Gap(k as real, x)
      && (Gap(n as real, x) == Gap(k as real, x) && k != n ==> n % 2 == 0)
  {
    var f := x.Floor;
    assert k <= f || k >= f + 1;
    assert k as real <= f as real || k as real >= f as real + 1.0;
  }

  lemma EvenFits(p: Precision, n: int)
    requires p >= 2 && n % 2 == 0 && Low(p) <= n as real <= High(p)
    ensures Fits(p - 1, n as real)
  {
    var half := n / 2;
    assert n as real == 2.0 * half as real;
    assert Pow2(p) == 2 * Pow2(p - 1);
    if n == Pow2(p) {
      assert Pow2(p - 1) == 2 * Pow2(p - 2);
      assert Scale(Pow2(p - 2) as real, 2) == 2.0 * Scale(Pow2(p - 2) as real, 1);
      assert Scale(Pow2(p - 2) as real, 1) == 2.0 * Scale(Pow2(p - 2) as real, 0);
      assert IsScaled(p - 1, n as real, Pow2(p - 2), 2);
    } else {
      assert Scale(half as real, 1) == 2.0 * Scale(half as real, 0);
      assert IsScaled(p - 1, n as real, half, 1);
    }
    FitsIffRepresentable(p - 1, n as real);
  }
}
