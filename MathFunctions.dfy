/**
 The parts of Python's `math` module that the solar model uses.

 `radians` and `degrees` are plain scalings by pi/180 and are written out
 over `real`. The transcendental functions `sin`, `cos`, `tan` and `atan`
 cannot be evaluated here, so they are passed in as a record of functions;
 a property that depends on one of their mathematical facts takes that fact
 as an explicit precondition (for example `SinBounded`).
 */
module MathFunctions {

  /** The value of Python's `math.pi`. */
  const PI: real := 3.141592653589793

  /** Python's `abs` on a float. */
  function Abs(x: real): (r: real)
    ensures r >= 0.0 && (r == x || r == -x)
  {
    if x < 0.0 then -x else x
  }

  /** `math.radians`: degrees to radians. */
  function Radians(deg: real): real
  {
    deg * (PI / 180.0)
  }

  /** `math.degrees`: radians to degrees. */
  function Degrees(rad: real): real
  {
    rad * (180.0 / PI)
  }

  /** The transcendental functions of `math` the solar model calls. */
  datatype Transcendentals = Transcendentals(
    sin: real -> real,
    cos: real -> real,
    tan: real -> real,
    atan: real -> real)

  /** `-1 <= sin x <= 1` for every x. */
  ghost predicate SinBounded(m: Transcendentals)
  {
    forall x :: -1.0 <= m.sin(x) <= 1.0
  }

  /** `-1 <= cos x <= 1` for every x. */
  ghost predicate CosBounded(m: Transcendentals)
  {
    forall x :: -1.0 <= m.cos(x) <= 1.0
  }

  /** On arguments in [-1000, 1000], `atan` stays strictly inside (-pi/2, pi/2)
      (atan 1000 is about 1.5698; only for arguments beyond about 1e16 does
      `math.atan` round to `math.pi / 2`). */
  ghost predicate AtanBounded(m: Transcendentals)
  {
    forall x :: -1000.0 <= x <= 1000.0 ==> -PI / 2.0 < m.atan(x) < PI / 2.0
  }

  /** `atan` never moves a value away from zero: |atan x| <= |x|. */
  ghost predicate AtanShrinks(m: Transcendentals)
  {
    forall x :: Abs(m.atan(x)) <= Abs(x)
  }

  /** `tan` undoes `atan`: tan(atan x) = x for every x. */
  ghost predicate TanInvertsAtan(m: Transcendentals)
  {
    forall x :: m.tan(m.atan(x)) == x
  }

  /** `atan` undoes `tan` on the open interval (-pi/2, pi/2). */
  ghost predicate AtanInvertsTan(m: Transcendentals)
  {
    forall x :: -PI / 2.0 < x < PI / 2.0 ==> m.atan(m.tan(x)) == x
  }

  /** `cos` is strictly decreasing on [0, pi]. */
  ghost predicate CosDecreasingOnHalfTurn(m: Transcendentals)
  {
    forall x, y :: 0.0 <= x < y <= PI ==> m.cos(y) < m.cos(x)
  }

  /** `atan` is strictly increasing. */
  ghost predicate AtanIncreasing(m: Transcendentals)
  {
    forall x, y :: x < y ==> m.atan(x) < m.atan(y)
  }

  /** The exact values at zero: sin 0 = 0, cos 0 = 1, tan 0 = 0, atan 0 = 0. */
  predicate ExactAtZero(m: Transcendentals)
  {
    m.sin(0.0) == 0.0 && m.cos(0.0) == 1.0 && m.tan(0.0) == 0.0 && m.atan(0.0) == 0.0
  }

  /** An arc tangent of an argument in [-1000, 1000], converted to degrees,
      lies strictly between -90 and 90. */
  lemma AtanDegreesBounded(m: Transcendentals, x: real)
    requires AtanBounded(m)
    requires -1000.0 <= x <= 1000.0
    ensures -90.0 < Degrees(m.atan(x)) < 90.0
  {
    var a := m.atan(x);
    assert -PI / 2.0 < a < PI / 2.0;
  }

  /** A product of two non-negative numbers is non-negative, and of two
      positive numbers positive. */
  lemma ProductNonNegative(a: real, b: real)
    requires a >= 0.0 && b >= 0.0
    ensures a * b >= 0.0
    ensures a > 0.0 && b > 0.0 ==> a * b > 0.0
  {
  }

  /** Multiplying by a positive number keeps the sign. */
  lemma ProductSign(x: real, t: real)
    requires t > 0.0
    ensures x * t >= 0.0 <==> x >= 0.0
  {
    if x >= 0.0 {
      ProductNonNegative(x, t);
    } else {
      ProductNonNegative(-x, t);
      assert (-x) * t == -(x * t);
    }
  }

  /** Dividing by a number at least 0.001 multiplies a bound by at most 1000. */
  lemma PositiveQuotientBounded(c: real, t: real, bound: real)
    requires Abs(c) <= bound
    requires t >= 0.001
    ensures -(1000.0 * bound) <= c / t <= 1000.0 * bound
  {
    var q := c / t;
    assert c == q * t;
    var bt := bound * t;
    ProductNonNegative(bound, t - 0.001);
    assert bound * (t - 0.001) == bt - bound * 0.001;
    assert 1000.0 * bt >= bound;
    ProductSign(1000.0 * bound - q, t);
    assert (1000.0 * bound - q) * t == 1000.0 * bt - c;
    ProductSign(q + 1000.0 * bound, t);
    assert (q + 1000.0 * bound) * t == c + 1000.0 * bt;
  }

  /** Dividing by a number at least 0.001 in size multiplies a bound by at
      most 1000. */
  lemma QuotientBounded(c: real, t: real, bound: real)
    requires Abs(c) <= bound
    requires Abs(t) >= 0.001
    ensures Abs(c / t) <= 1000.0 * bound
  {
    if t > 0.0 {
      PositiveQuotientBounded(c, t, bound);
    } else {
      PositiveQuotientBounded(-c, -t, bound);
      var q := c / t;
      assert c == q * t;
      assert -c == q * -t;
      assert (-c) / (-t) == q;
    }
  }

  /** Converting to radians and back to degrees gives the angle back. */
  lemma DegreesOfRadians(deg: real)
    ensures Degrees(Radians(deg)) == deg
  {
  }

  /** Converting to degrees and back to radians gives the angle back. */
  lemma RadiansOfDegrees(rad: real)
    ensures Radians(Degrees(rad)) == rad
  {
  }

}
