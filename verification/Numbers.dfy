/** Numbers as Go's `big.Float` holds them: a mantissa of a number's own precision, rounded to nearest
    even, with an unbounded exponent. `SetString` on a fresh value takes 64 bits. A JSON number literal
    is any real; only the rounded real survives decoding. */
module Numbers {

  /** Mantissa bits. */
  type Precision = p: nat | 1 <= p witness 64

  const PARSED: Precision := 64

  function Pow2(k: nat): (n: int)
    ensures n >= 1
  {
    if k == 0 then 1 else 2 * Pow2(k - 1)
  }

  /** The mantissas of precision p with their top bit set lie in [Low(p), High(p)). */
  function Low(p: Precision): (r: real)
    ensures r >= 1.0
  {
    Pow2(p - 1) as real
  }

  function High(p: Precision): (r: real)
    ensures r == 2.0 * Low(p)
  {
    Pow2(p) as real
  }

  /** x times 2 to the power e. */
  function Scale(x: real, e: int): (r: real)
    decreases if e < 0 then -e else e
  {
    if e == 0 then x else if e > 0 then 2.0 * Scale(x, e - 1) else Scale(x, e + 1) / 2.0
  }

  ghost predicate IsScaled(p: Precision, x: real, m: int, e: int) {
    -Pow2(p) < m < Pow2(p) && x == Scale(m as real, e)
  }

  /** The values a mantissa of p bits can hold exactly. */
  ghost predicate Representable(p: Precision, x: real) {
    exists m: int, e: int :: IsScaled(p, x, m, e)
  }

  predicate IsInteger(x: real) {
    x.Floor as real == x
  }

  /** Nearest integer, ties to even. */
  function RoundHalfEven(x: real): (n: int)
    ensures IsInteger(x) ==> n as real == x
    ensures x - 0.5 <= n as real <= x + 0.5
  {
    var f := x.Floor;
    var rest := x - f as real;
    if rest < 0.5 || (rest == 0.5 && f % 2 == 0) then f else f + 1
  }

  /** How many doublings or halvings bring x into [Low(p), High(p)), or more. */
  function Distance(p: Precision, x: real): (d: int)
    requires x > 0.0
  {
    if x < Low(p) then (Low(p) / x).Floor
    else if x >= High(p) then (x / Low(p)).Floor
    else 0
  }

  lemma Quotient(t: real, x: real)
    requires 0.0 < x <= t
    ensures t / x >= 1.0
    ensures t / (2.0 * x) == t / x / 2.0
  {
    var q := t / x;
    assert q * x == t;
  }

  lemma HalfQuotient(x: real, t: real)
    requires t > 0.0 && x >= 2.0 * t
    ensures x / t >= 2.0
    ensures x / 2.0 / t == x / t / 2.0
  {
    var q := x / t;
    assert q * t == x;
    assert q < 2.0 ==> q * t < 2.0 * t;
  }

  lemma DoublingApproaches(p: Precision, x: real)
    requires 0.0 < x < Low(p)
    ensures 0 <= Distance(p, 2.0 * x) < Distance(p, x)
  {
    Quotient(Low(p), x);
    if 2.0 * x < Low(p) { Quotient(Low(p), 2.0 * x); }
  }

  lemma HalvingApproaches(p: Precision, x: real)
    requires x >= High(p)
    ensures 0 <= Distance(p, x / 2.0) < Distance(p, x)
  {
    HalfQuotient(x, Low(p));
  }

  function RoundPositive(p: Precision, x: real): (r: real)
    requires x > 0.0
    ensures r > 0.0
    decreases Distance(p, x)
  {
    if x < Low(p) then
      DoublingApproaches(p, x); RoundPositive(p, 2.0 * x) / 2.0
    else if x >= High(p) then
      HalvingApproaches(p, x); RoundPositive(p, x / 2.0) * 2.0
    else RoundHalfEven(x) as real
  }

  /** What parsing at precision p leaves of the literal x. */
  function Round(p: Precision, x: real): (r: real) {
    if x == 0.0 then 0.0 else if x > 0.0 then RoundPositive(p, x) else -RoundPositive(p, -x)
  }

  /** Can be held at precision p. */
  predicate Fits(p: Precision, x: real) {
    Round(p, x) == x
  }

  lemma {:induction false} ScaleNegates(x: real, e: int)
    ensures Scale(-x, e) == -Scale(x, e)
    decreases if e < 0 then -e else e
  {
    if e > 0 { ScaleNegates(x, e - 1); } else if e < 0 { ScaleNegates(x, e + 1); }
  }

  lemma RepresentableScales(p: Precision, x: real)
    requires Representable(p, x)
    ensures Representable(p, 2.0 * x) && Representable(p, x / 2.0) && Representable(p, -x)
  {
    var m, e :| IsScaled(p, x, m, e);
    assert Scale(m as real, e + 1) == 2.0 * Scale(m as real, e);
    assert Scale(m as real, e - 1) == Scale(m as real, e) / 2.0;
    assert IsScaled(p, 2.0 * x, m, e + 1);
    assert IsScaled(p, x / 2.0, m, e - 1);
    ScaleNegates(m as real, e);
    assert (-m) as real == -(m as real);
    assert IsScaled(p, -x, -m, e);
  }

  lemma {:induction false} ScaledUpIsInteger(m: int, e: int)
    requires e >= 0
    ensures IsInteger(Scale(m as real, e))
    decreases e
  {
    if e == 0 {
    } else {
      ScaledUpIsInteger(m, e - 1);
      var k := Scale(m as real, e - 1).Floor;
      assert Scale(m as real, e) == (2 * k) as real;
    }
  }

  lemma {:induction false} ScaledDownShrinks(x: real, e: int)
    requires e < 0
    ensures x > 0.0 ==> 0.0 < Scale(x, e) <= x / 2.0
    ensures x <= 0.0 ==> Scale(x, e) <= 0.0
    decreases -e
  {
    if e < -1 { ScaledDownShrinks(x, e + 1); } else { assert Scale(x, 0) == x; }
  }

  lemma MantissaRangeIsInteger(p: Precision, x: real)
    requires Representable(p, x) && Low(p) <= x < High(p)
    ensures IsInteger(x)
  {
    var m, e :| IsScaled(p, x, m, e);
    if e >= 0 {
      ScaledUpIsInteger(m, e);
    } else {
      ScaledDownShrinks(m as real, e);
    }
  }

  lemma HalfEvenKeepsBounds(p: Precision, x: real)
    requires Low(p) <= x <= High(p)
    ensures Low(p) <= RoundHalfEven(x) as real <= High(p)
    ensures Pow2(p - 1) <= RoundHalfEven(x) <= Pow2(p)
  {
    assert Pow2(p - 1) <= x.Floor <= Pow2(p);
  }

  lemma {:induction false} RepresentableIsFixed(p: Precision, x: real)
    requires x > 0.0 && Representable(p, x)
    ensures RoundPositive(p, x) == x
    decreases Distance(p, x)
  {
    RepresentableScales(p, x);
    if x < Low(p) {
      DoublingApproaches(p, x);
      RepresentableIsFixed(p, 2.0 * x);
    } else if x >= High(p) {
      HalvingApproaches(p, x);
      RepresentableIsFixed(p, x / 2.0);
    } else {
      MantissaRangeIsInteger(p, x);
    }
  }

  lemma {:induction false} RoundingIsRepresentable(p: Precision, x: real)
    requires x > 0.0
    ensures Representable(p, RoundPositive(p, x))
    decreases Distance(p, x)
  {
    if x < Low(p) {
      DoublingApproaches(p, x);
      RoundingIsRepresentable(p, 2.0 * x);
      RepresentableScales(p, RoundPositive(p, 2.0 * x));
    } else if x >= High(p) {
      HalvingApproaches(p, x);
      RoundingIsRepresentable(p, x / 2.0);
      RepresentableScales(p, RoundPositive(p, x / 2.0));
    } else {
      var n := RoundHalfEven(x);
      HalfEvenKeepsBounds(p, x);
      if n == Pow2(p) {
        assert Scale(Low(p), 1) == 2.0 * Scale(Low(p), 0);
        assert IsScaled(p, n as real, Pow2(p - 1), 1);
      } else {
        assert IsScaled(p, n as real, n, 0);
      }
    }
  }

  /** Parsing at precision p leaves exactly the numbers with a p-bit mantissa alone. */
  lemma FitsIffRepresentable(p: Precision, x: real)
    ensures Fits(p, x) <==> Representable(p, x)
  {
    if x == 0.0 {
      assert IsScaled(p, 0.0, 0, 0);
    } else if x > 0.0 {
      RoundingIsRepresentable(p, x);
      if Representable(p, x) { RepresentableIsFixed(p, x); }
    } else {
      RoundingIsRepresentable(p, -x);
      RepresentableScales(p, RoundPositive(p, -x));
      if Representable(p, x) { RepresentableScales(p, x); RepresentableIsFixed(p, -x); }
    }
  }

  /** Rounding is idempotent. */
  lemma RoundFits(p: Precision, x: real)
    ensures Fits(p, Round(p, x))
  {
    FitsIffRepresentable(p, Round(p, x));
    if x == 0.0 {
      assert Fits(p, 0.0);
    } else if x > 0.0 {
      RoundingIsRepresentable(p, x);
    } else {
      RoundingIsRepresentable(p, -x);
      RepresentableScales(p, RoundPositive(p, -x));
    }
  }

  /** x times 10 to the power d. */
  function Shift10(x: real, d: nat): (r: real)
    decreases d
  {
    if d == 0 then x else 10.0 * Shift10(x, d - 1)
  }

  /** x divided by 10 to the power d. */
  function Unshift10(x: real, d: nat): (r: real)
    decreases d
  {
    if d == 0 then x else Unshift10(x / 10.0, d - 1)
  }

  lemma {:induction false} UnshiftUndoesShift(x: real, d: nat)
    ensures Unshift10(Shift10(x, d), d) == x
    decreases d
  {
    if d == 0 {
    } else {
      UnshiftUndoesShift(x, d - 1);
    }
  }

  lemma {:induction false} ShiftHalves(x: real, d: nat)
    ensures Shift10(x / 2.0, d) == Shift10(x, d) / 2.0
    decreases d
  {
    if d == 0 {
    } else {
      ShiftHalves(x, d - 1);
    }
  }

  /** Every value with a finite mantissa has a finite decimal expansion. */
  lemma {:induction false} FiniteExpansion(m: int, e: int) returns (d: nat)
    ensures IsInteger(Shift10(Scale(m as real, e), d))
    decreases if e < 0 then -e else 0
  {
    if e >= 0 {
      ScaledUpIsInteger(m, e);
      d := 0;
    } else {
      var x := Scale(m as real, e + 1);
      d := FiniteExpansion(m, e + 1);
      ShiftHalves(x, d);
      var k := Shift10(x, d).Floor;
      d := d + 1;
      assert Shift10(x / 2.0, d) == (5 * k) as real;
    }
  }

  lemma {:induction false} ShiftUndoesUnshift(x: real, d: nat)
    ensures Shift10(Unshift10(x, d), d) == x
    decreases d
  {
    if d == 0 {
    } else {
      ShiftUndoesUnshift(x / 10.0, d - 1);
    }
  }

  /** The neighbours of x among the decimals with d digits after the point. */
  function Below10(x: real, d: nat): real {
    Unshift10(Shift10(x, d).Floor as real, d)
  }

  function Above10(x: real, d: nat): real {
    Unshift10((Shift10(x, d).Floor + 1) as real, d)
  }

  /** The decimal with the fewest digits after the point, from d digits on, that parses to x; the nearer
      of two. */
  function ShortestFrom(p: Precision, x: real, d: nat, ghost bound: nat): (r: real)
    requires Fits(p, x) && d <= bound && IsInteger(Shift10(x, bound))
    ensures Round(p, r) == x
    decreases bound - d
  {
    var below, above := Below10(x, d), Above10(x, d);
    if Round(p, below) == x && Round(p, above) == x then Unshift10(RoundHalfEven(Shift10(x, d)) as real, d)
    else if Round(p, below) == x then below
    else if Round(p, above) == x then above
    else
      UnshiftUndoesShift(x, d);
      ShortestFrom(p, x, d + 1, bound)
  }

  lemma HasExpansion(p: Precision, x: real)
    requires Fits(p, x)
    ensures exists d: nat :: IsInteger(Shift10(x, d))
  {
    FitsIffRepresentable(p, x);
    var m, e :| IsScaled(p, x, m, e);
    var d := FiniteExpansion(m, e);
  }

  ghost function ExpansionBound(x: real): (d: nat)
    requires exists d: nat :: IsInteger(Shift10(x, d))
    ensures IsInteger(Shift10(x, d))
  {
    var d: nat :| IsInteger(Shift10(x, d)); d
  }

  /** The literal a number held at precision p prints as: integers exactly, other values by the
      shortest decimal that tells them apart at that precision. */
  function Literal(p: Precision, x: real): (r: real)
    requires Fits(p, x)
    ensures Round(p, r) == x
  {
    if IsInteger(x) then x
    else
      HasExpansion(p, x);
      ShortestFrom(p, x, 0, ExpansionBound(x))
  }

  // ---------------------------------------------------------------- shortest decimals

  lemma {:induction false} RoundPositiveKeepsBounds(p: Precision, x: real)
    requires x > 0.0
    ensures x <= Low(p) ==> RoundPositive(p, x) <= Low(p)
    ensures x >= Low(p) ==> RoundPositive(p, x) >= Low(p)
    ensures x <= High(p) ==> RoundPositive(p, x) <= High(p)
    ensures x >= High(p) ==> RoundPositive(p, x) >= High(p)
    decreases Distance(p, x)
  {
    if x < Low(p) {
      DoublingApproaches(p, x);
      RoundPositiveKeepsBounds(p, 2.0 * x);
    } else if x >= High(p) {
      HalvingApproaches(p, x);
      RoundPositiveKeepsBounds(p, x / 2.0);
    } else {
      HalfEvenKeepsBounds(p, x);
    }
  }

  lemma HalfEvenIsMonotone(x: real, y: real)
    requires x <= y
    ensures RoundHalfEven(x) <= RoundHalfEven(y)
  {
    assert x.Floor <= y.Floor;
  }

  lemma {:induction false} RoundPositiveIsMonotone(p: Precision, x: real, y: real)
    requires 0.0 < x <= y
    ensures RoundPositive(p, x) <= RoundPositive(p, y)
    decreases Distance(p, x)
  {
    if y < Low(p) {
      DoublingApproaches(p, x);
      RoundPositiveIsMonotone(p, 2.0 * x, 2.0 * y);
    } else if x >= High(p) {
      HalvingApproaches(p, x);
      RoundPositiveIsMonotone(p, x / 2.0, y / 2.0);
    } else if Low(p) <= x && y < High(p) {
      HalfEvenIsMonotone(x, y);
    } else {
      RoundPositiveKeepsBounds(p, x);
      RoundPositiveKeepsBounds(p, y);
    }
  }

  /** Parsing keeps order. */
  lemma RoundIsMonotone(p: Precision, x: real, y: real)
    requires x <= y
    ensures Round(p, x) <= Round(p, y)
  {
    if x > 0.0 {
      RoundPositiveIsMonotone(p, x, y);
    } else if y < 0.0 {
      RoundPositiveIsMonotone(p, -y, -x);
    }
  }

  lemma {:induction false} ShiftIsMonotone(x: real, y: real, d: nat)
    requires x <= y
    ensures Shift10(x, d) <= Shift10(y, d) && Unshift10(x, d) <= Unshift10(y, d)
    decreases d
  {
    if d == 0 {
    } else {
      ShiftIsMonotone(x, y, d - 1);
      ShiftIsMonotone(x / 10.0, y / 10.0, d - 1);
    }
  }

  /** If any decimal with d digits after the point parses to x, one of x's neighbours does. */
  lemma NeighbourParses(p: Precision, x: real, d: nat, c: real)
    requires Fits(p, x) && IsInteger(Shift10(c, d)) && Round(p, c) == x
    ensures Round(p, Below10(x, d)) == x || Round(p, Above10(x, d)) == x
  {
    hide Round, Shift10, Unshift10;
    var f := Shift10(x, d).Floor;
    UnshiftUndoesShift(c, d);
    UnshiftUndoesShift(x, d);
    if c <= x {
      ShiftIsMonotone(c, x, d);
      assert Shift10(c, d).Floor <= f;
      ShiftIsMonotone(Shift10(c, d), f as real, d);
      ShiftIsMonotone(f as real, Shift10(x, d), d);
      RoundIsMonotone(p, c, Below10(x, d));
      RoundIsMonotone(p, Below10(x, d), x);
    } else {
      ShiftIsMonotone(x, c, d);
      Above(x, c, d);
      RoundIsMonotone(p, x, Above10(x, d));
      RoundIsMonotone(p, Above10(x, d), c);
    }
  }

  lemma Above(x: real, c: real, d: nat)
    requires x < c && IsInteger(Shift10(c, d))
    ensures x <= Above10(x, d) <= c
  {
    hide Shift10, Unshift10;
    var f := Shift10(x, d).Floor;
    UnshiftUndoesShift(c, d);
    UnshiftUndoesShift(x, d);
    ShiftIsMonotone(x, c, d);
    assert Shift10(x, d) != Shift10(c, d);
    assert f + 1 <= Shift10(c, d).Floor;
    ShiftIsMonotone((f + 1) as real, Shift10(c, d), d);
    ShiftIsMonotone(Shift10(x, d), (f + 1) as real, d);
  }

  lemma {:induction false} MoreDigits(n: int, d: nat, k: nat)
    requires d <= k
    ensures IsInteger(Shift10(Unshift10(n as real, d), k))
    decreases k
  {
    ShiftUndoesUnshift(n as real, d);
    if k == d {
    } else {
      MoreDigits(n, d, k - 1);
      var m := Shift10(Unshift10(n as real, d), k - 1).Floor;
      assert Shift10(Unshift10(n as real, d), k) == (10 * m) as real;
    }
  }

  lemma {:induction false} ShortestFromIsShortest(p: Precision, x: real, d: nat, bound: nat, c: real, k: nat)
    requires Fits(p, x) && d <= bound && IsInteger(Shift10(x, bound))
    requires d <= k && IsInteger(Shift10(c, k)) && Round(p, c) == x
    ensures IsInteger(Shift10(ShortestFrom(p, x, d, bound), k))
    decreases bound - d
  {
    hide Round, Shift10, Unshift10, IsInteger;
    var f := Shift10(x, d).Floor;
    MoreDigits(f, d, k);
    MoreDigits(f + 1, d, k);
    MoreDigits(RoundHalfEven(Shift10(x, d)), d, k);
    if Round(p, Below10(x, d)) != x && Round(p, Above10(x, d)) != x {
      if k == d { NeighbourParses(p, x, d, c); }
      NotYet(p, x, d, bound);
      ShortestFromIsShortest(p, x, d + 1, bound, c, k);
    }
  }

  lemma NotYet(p: Precision, x: real, d: nat, bound: nat)
    requires Fits(p, x) && d <= bound && IsInteger(Shift10(x, bound)) && Round(p, Below10(x, d)) != x
    ensures d < bound
  {
    UnshiftUndoesShift(x, d);
  }

  /** No decimal with fewer digits after the point parses to a value than the one it prints as. */
  lemma LiteralIsShortest(p: Precision, x: real, c: real, k: nat)
    requires Fits(p, x) && Round(p, c) == x && IsInteger(Shift10(c, k))
    ensures IsInteger(Shift10(Literal(p, x), k))
  {
    if IsInteger(x) {
      MoreDigits(x.Floor, 0, k);
    } else {
      HasExpansion(p, x);
      ShortestFromIsShortest(p, x, 0, ExpansionBound(x), c, k);
    }
  }

  // ---------------------------------------------------------------- printing at one precision, parsing at another

  lemma {:induction false} Pow2Grows(a: nat, b: nat)
    requires a <= b
    ensures Pow2(a) <= Pow2(b) && (a < b ==> 2 * Pow2(a) <= Pow2(b))
    decreases b
  {
    if a == b {
    } else {
      Pow2Grows(a, b - 1);
    }
  }

  lemma FitsFiner(p: Precision, q: Precision, x: real)
    requires p <= q && Fits(p, x)
    ensures Fits(q, x)
  {
    FitsIffRepresentable(p, x);
    FitsIffRepresentable(q, x);
    Pow2Grows(p, q);
    var m, e :| IsScaled(p, x, m, e);
    assert IsScaled(q, x, m, e);
  }

  function Gap(x: real, y: real): (r: real)
    ensures r >= 0.0
  {
    if x < y then y - x else x - y
  }

  /** A product kept under a name, so that only the lemmas below multiply. */
  predicate Within(g: real, h: real, x: real) {
    g * h <= x
  }

  lemma WithinHalves(g: real, h: real, x: real)
    requires Within(g, h, x)
    ensures Within(g / 2.0, h, x / 2.0) && Within(2.0 * g, h, 2.0 * x)
  {
    assert (g / 2.0) * h == g * h / 2.0;
    assert (2.0 * g) * h == 2.0 * (g * h);
  }

  lemma WithinSmaller(g: real, h: real, k: real, x: real)
    requires Within(g, h, x) && g >= 0.0 && 0.0 <= k <= h
    ensures Within(g, k, x)
  {
    assert g * k <= g * h;
  }

  lemma WithinHalf(g: real, h: real, x: real)
    requires 0.0 <= g <= 0.5 && 0.0 <= h <= 2.0 * x
    ensures Within(g, h, x)
  {
    assert g * h <= 0.5 * h;
  }

  lemma CloseWithin(g: real, h: real, x: real)
    requires Within(g, 2.0 * h, x) && 0.0 < x < h
    ensures g < 0.5
  {
    assert g >= 0.5 ==> 0.5 * (2.0 * h) <= g * (2.0 * h);
  }

  lemma GapScales(x: real, y: real)
    ensures Gap(x / 2.0, y / 2.0) == Gap(x, y) / 2.0 && Gap(2.0 * x, 2.0 * y) == 2.0 * Gap(x, y)
    ensures Gap(x, y) == Gap(y, x)
  {}

  /** Rounding moves a number by at most half a unit in its last place. */
  lemma {:induction false} RoundingError(p: Precision, x: real)
    requires x > 0.0
    ensures Within(Gap(RoundPositive(p, x), x), High(p), x)
    decreases Distance(p, x)
  {
    hide High, Low, Gap, Distance, Within;
    if x < Low(p) {
      DoublingApproaches(p, x);
      RoundingError(p, 2.0 * x);
      GapScales(RoundPositive(p, 2.0 * x), 2.0 * x);
      WithinHalves(Gap(RoundPositive(p, 2.0 * x), 2.0 * x), High(p), 2.0 * x);
    } else if x >= High(p) {
      HalvingApproaches(p, x);
      RoundingError(p, x / 2.0);
      GapScales(RoundPositive(p, x / 2.0), x / 2.0);
      WithinHalves(Gap(RoundPositive(p, x / 2.0), x / 2.0), High(p), x / 2.0);
    } else {
      NearestIsClose(x);
      WithinHalf(Gap(RoundHalfEven(x) as real, x), High(p), x);
    }
  }

  lemma NearestIsClose(x: real)
    ensures Gap(RoundHalfEven(x) as real, x) <= 0.5
  {}

  lemma NearestInteger(x: real, n: int)
    requires Gap(x, n as real) < 0.5
    ensures RoundHalfEven(x) == n
  {
    assert x.Floor == n || x.Floor == n - 1;
  }

  /** c is within a quarter of the last place of precision q from n. */
  predicate Nearby(q: Precision, c: real, n: real) {
    c > 0.0 && n > 0.0 && Within(Gap(c, n), 2.0 * High(q), c)
  }

  lemma NearbyScales(q: Precision, c: real, n: real)
    requires Nearby(q, c, n)
    ensures Nearby(q, 2.0 * c, 2.0 * n) && Nearby(q, c / 2.0, n / 2.0)
  {
    hide High, Within, Gap;
    GapScales(c, n);
    WithinHalves(Gap(c, n), 2.0 * High(q), c);
  }

  lemma NearbyIsClose(q: Precision, c: real, n: real)
    requires Nearby(q, c, n) && c < High(q)
    ensures Gap(c, n) < 0.5
  {
    hide Within, High, Gap;
    CloseWithin(Gap(c, n), High(q), c);
  }

  /** A value of precision q is what everything that near to it rounds to. */
  lemma {:induction false} NearbyRounds(q: Precision, c: real, n: real)
    requires Nearby(q, c, n) && Fits(q, n)
    ensures RoundPositive(q, c) == n
    decreases Distance(q, c)
  {
    hide Nearby, Fits;
    NearbyIsPositive(q, c, n);
    NearbyScales(q, c, n);
    if c < Low(q) {
      DoublingApproaches(q, c);
      DoubleFits(q, n);
      NearbyRounds(q, 2.0 * c, 2.0 * n);
    } else if c >= High(q) {
      HalvingApproaches(q, c);
      HalfFits(q, n);
      NearbyRounds(q, c / 2.0, n / 2.0);
    } else {
      NearbyIsClose(q, c, n);
      NearMantissas(q, c, n);
      NearestInteger(c, n.Floor);
    }
  }

  lemma NearbyIsPositive(q: Precision, c: real, n: real)
    requires Nearby(q, c, n)
    ensures c > 0.0 && n > 0.0
  {}

  lemma NearMantissas(q: Precision, c: real, n: real)
    requires Low(q) <= c < High(q) && n > 0.0 && Fits(q, n) && Gap(c, n) < 0.5
    ensures IsInteger(n)
  {
    FitsIffRepresentable(q, n);
    RepresentableScales(q, n);
    hide Representable, Fits;
    if n < Low(q) {
      MantissaRangeIsInteger(q, 2.0 * n);
      NoIntegerBetween(2.0 * n, 2 * Pow2(q - 1));
    } else if n >= High(q) {
      MantissaRangeIsInteger(q, n / 2.0);
      assert n == (2 * (n / 2.0).Floor) as real;
    } else {
      MantissaRangeIsInteger(q, n);
    }
  }

  lemma NoIntegerBetween(x: real, k: int)
    requires (k - 1) as real < x < k as real
    ensures !IsInteger(x)
  {
    var f := x.Floor;
    assert f as real <= x;
    assert f <= k - 1;
  }

  lemma DoubleFits(q: Precision, n: real)
    requires Fits(q, n)
    ensures Fits(q, 2.0 * n)
  {
    FitsIffRepresentable(q, n);
    RepresentableScales(q, n);
    FitsIffRepresentable(q, 2.0 * n);
  }

  lemma HalfFits(q: Precision, n: real)
    requires Fits(q, n)
    ensures Fits(q, n / 2.0)
  {
    FitsIffRepresentable(q, n);
    RepresentableScales(q, n);
    FitsIffRepresentable(q, n / 2.0);
  }

  /** What parses to a value at some precision also parses to it at any lower one that holds it. */
  lemma CoarserParsesAlike(q: Precision, p: Precision, c: real, n: real)
    requires q <= p && Fits(q, n) && Round(p, c) == n
    ensures Round(q, c) == n
  {
    if q < p {
      if c > 0.0 {
        CoarserPositive(q, p, c, n);
      } else if c < 0.0 {
        CoarserPositive(q, p, -c, -n);
      }
    }
  }

  lemma IsNearby(q: Precision, p: Precision, c: real)
    requires q < p && c > 0.0
    ensures Nearby(q, c, RoundPositive(p, c))
  {
    var n := RoundPositive(p, c);
    RoundingError(p, c);
    HighGrows(q, p);
    GapScales(c, n);
    hide Gap, High, RoundPositive, Within;
    WithinSmaller(Gap(c, n), High(p), 2.0 * High(q), c);
  }

  lemma HighGrows(q: Precision, p: Precision)
    requires q < p
    ensures 2.0 * High(q) <= High(p)
  {
    Pow2Grows(q, p);
  }

  lemma CoarserPositive(q: Precision, p: Precision, c: real, n: real)
    requires q < p && c > 0.0 && Fits(q, n) && RoundPositive(p, c) == n
    ensures RoundPositive(q, c) == n
  {
    IsNearby(q, p, c);
    NearbyRounds(q, c, n);
  }

  /** The number fits 64 bits and, if it is held with fewer, prints as it would with 64. */
  predicate Survives(p: Precision, x: real) {
    Fits(p, x) && Fits(PARSED, x) && (p < PARSED ==> Literal(p, x) == Literal(PARSED, x))
  }

  /** Parsing what a number prints as gives it back exactly when it survives. */
  lemma SurvivesExactly(p: Precision, x: real)
    requires Fits(p, x)
    ensures Round(PARSED, Literal(p, x)) == x <==> Survives(p, x)
  {
    RoundFits(PARSED, Literal(p, x));
    if p >= PARSED {
      if Fits(PARSED, x) { CoarserParsesAlike(PARSED, p, Literal(p, x), x); }
    } else {
      FitsFiner(p, PARSED, x);
      if Round(PARSED, Literal(p, x)) == x && !IsInteger(x) {
        HasExpansion(p, x);
        SameShortest(p, x, 0, ExpansionBound(x));
      }
    }
  }

  lemma {:induction false} SameShortest(p: Precision, x: real, d: nat, bound: nat)
    requires p < PARSED && Fits(p, x) && Fits(PARSED, x) && d <= bound && IsInteger(Shift10(x, bound))
    requires Round(PARSED, ShortestFrom(p, x, d, bound)) == x
    ensures ShortestFrom(PARSED, x, d, bound) == ShortestFrom(p, x, d, bound)
    decreases bound - d
  {
    hide Round, Shift10, Unshift10;
    var below, above := Below10(x, d), Above10(x, d);
    if Round(PARSED, below) == x { CoarserParsesAlike(p, PARSED, below, x); }
    if Round(PARSED, above) == x { CoarserParsesAlike(p, PARSED, above, x); }
    if Round(p, below) != x && Round(p, above) != x {
      NotYet(p, x, d, bound);
      SameShortest(p, x, d + 1, bound);
    }
  }

  /** An integer is printed in full, so it survives whenever 64 bits hold it, at any precision. */
  lemma IntegerSurvives(p: Precision, x: real)
    requires Fits(p, x) && (IsInteger(x) || p >= PARSED)
    ensures Survives(p, x) <==> Fits(PARSED, x)
  {}

  // ---------------------------------------------------------------- a float64 that does not come back

  /** The float64 nearest to one tenth. */
  const FLOAT64: Precision := 53
  const TENTH: real := 3602879701896397.0 / 36028797018963968.0

  lemma {:induction false} Pow2Adds(a: nat, b: nat)
    ensures Pow2(a + b) == Pow2(a) * Pow2(b)
    decreases a
  {
    if a == 0 {
    } else {
      Pow2Adds(a - 1, b);
      assert 2 * Pow2(a - 1) * Pow2(b) == 2 * (Pow2(a - 1) * Pow2(b));
    }
  }

  lemma SmallPowers()
    ensures Pow2(1) == 2 && Pow2(3) == 8 && Pow2(4) == 16 && Pow2(11) == 2048 && Pow2(16) == 65536
  {
    assert Pow2(2) == 4 && Pow2(3) == 8 && Pow2(4) == 16;
    Pow2Adds(4, 4);
    Pow2Adds(8, 3);
    Pow2Adds(8, 8);
  }

  lemma MiddlePowers()
    ensures Pow2(52) == 4503599627370496
  {
    SmallPowers();
    hide Pow2;
    Pow2Adds(16, 16);
    Pow2Adds(32, 16);
    Pow2Adds(48, 4);
  }

  lemma SomePowers()
    ensures Pow2(52) == 4503599627370496 && Pow2(53) == 9007199254740992 && Pow2(56) == 72057594037927936
    ensures Pow2(63) == 9223372036854775808 && Pow2(64) == 18446744073709551616 && Pow2(67) == 147573952589676412928
  {
    SmallPowers();
    MiddlePowers();
    hide Pow2;
    Pow2Adds(52, 1);
    Pow2Adds(52, 4);
    Pow2Adds(52, 11);
    Pow2Adds(63, 1);
    Pow2Adds(64, 3);
  }

  lemma {:induction false} ScaleIsProduct(x: real, k: nat)
    ensures Scale(x, k) == x * Pow2(k) as real
    decreases k
  {
    if k == 0 {
    } else {
      ScaleIsProduct(x, k - 1);
      var r := Pow2(k - 1) as real;
      assert Pow2(k) as real == 2.0 * r;
      assert 2.0 * (x * r) == x * (2.0 * r);
    }
  }

  lemma {:induction false} RoundingScales(p: Precision, x: real, k: nat)
    requires x > 0.0
    ensures Scale(x, k) > 0.0 && RoundPositive(p, Scale(x, k)) == Scale(RoundPositive(p, x), k)
    decreases k
  {
    if k == 0 {
    } else {
      RoundingScales(p, x, k - 1);
      RoundingDoubles(p, Scale(x, k - 1));
    }
  }

  lemma RoundingDoubles(p: Precision, x: real)
    requires x > 0.0
    ensures RoundPositive(p, 2.0 * x) == 2.0 * RoundPositive(p, x)
  {}

  /** At 53 bits one tenth is that float64; at 64 bits it is another number. */
  lemma RoundedTenth()
    ensures Round(FLOAT64, 0.1) == TENTH && Round(PARSED, 0.1) != TENTH
  {
    SomePowers();
    ScaleIsProduct(0.1, 56);
    ScaleIsProduct(Round(FLOAT64, 0.1), 56);
    RoundingScales(FLOAT64, 0.1, 56);
    assert RoundHalfEven(7205759403792793.6) == 7205759403792794;
    ScaleIsProduct(0.1, 67);
    ScaleIsProduct(Round(PARSED, 0.1), 67);
    RoundingScales(PARSED, 0.1, 67);
    assert RoundHalfEven(14757395258967641292.8) == 14757395258967641293;
  }

  /** It prints as 0.1, which parses to that other number. */
  lemma TenthIsLost()
    ensures Fits(FLOAT64, TENTH) && Fits(PARSED, TENTH)
    ensures Literal(FLOAT64, TENTH) == 0.1 && !Survives(FLOAT64, TENTH)
  {
    RoundedTenth();
    RoundFits(FLOAT64, 0.1);
    FitsFiner(FLOAT64, PARSED, TENTH);
    HasExpansion(FLOAT64, TENTH);
    TenthPrints(ExpansionBound(TENTH));
    SurvivesExactly(FLOAT64, TENTH);
  }

  lemma TenthPrints(bound: nat)
    requires Fits(FLOAT64, TENTH) && Round(FLOAT64, 0.1) == TENTH && IsInteger(Shift10(TENTH, bound))
    ensures ShortestFrom(FLOAT64, TENTH, 0, bound) == 0.1
  {
    RoundingDoubles(FLOAT64, 0.1);
    OneFits();
    hide Round;
    assert Below10(TENTH, 0) == 0.0 && Above10(TENTH, 0) == 1.0;
    assert Round(FLOAT64, 0.0) == 0.0 by { ZeroFits(FLOAT64); }
    NotYet(FLOAT64, TENTH, 0, bound);
    assert Shift10(TENTH, 1) == 10.0 * TENTH;
    assert Shift10(TENTH, 1).Floor == 1;
    assert Below10(TENTH, 1) == 0.1 && Above10(TENTH, 1) == 0.2;
  }

  lemma ZeroFits(p: Precision)
    ensures Round(p, 0.0) == 0.0
  {}

  lemma OneFits()
    ensures Round(FLOAT64, 1.0) == 1.0
  {
    SomePowers();
    assert Scale(1.0, 0) == 1.0;
    assert IsScaled(FLOAT64, 1.0, 1, 0);
    FitsIffRepresentable(FLOAT64, 1.0);
  }
}
