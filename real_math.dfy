/** Real-number helpers shared by the SPH and setup models.

    The C code calls sqrt, pow(x, 1/3) and the constant pi. Dafny's reals have no
    roots, so the roots are passed around as functions and the laws they obey are
    stated as predicates that callers must establish. */
module RealMath {

  /** The value of the C macro `pi` (M_PI as a double, written as a decimal). */
  const Pi: real := 3.141592653589793

  /** The value of the C macro `sqrt3`. */
  const Sqrt3: real := 1.7320508075688772

  /** 4 pi / 3, the volume factor of a unit sphere (`fourpithird`). */
  const FourPiThird: real := 4.0 * Pi / 3.0

  function Abs(x: real): (r: real)
    ensures r >= 0.0
    ensures r == x || r == -x
  {
    if x < 0.0 then -x else x
  }

  /** x to the power n, by repeated multiplication as the C macros p2, p3 do. */
  function Pow(x: real, n: nat): (r: real)
    ensures x > 0.0 ==> r > 0.0
    ensures x != 0.0 ==> r != 0.0
  {
    if n == 0 then 1.0 else x * Pow(x, n - 1)
  }

  /** The C macro p3. */
  function Cube(x: real): real { x * x * x }

  lemma CubeSigns(x: real)
    ensures x > 0.0 ==> Cube(x) > 0.0
    ensures x >= 0.0 ==> Cube(x) >= 0.0
  {
  }

  /** C's fmin */
  function Min(a: real, b: real): (r: real)
    ensures r <= a && r <= b && (r == a || r == b)
  {
    if a <= b then a else b
  }

  /** C's fmax */
  function Max(a: real, b: real): (r: real)
    ensures r >= a && r >= b && (r == a || r == b)
  {
    if a >= b then a else b
  }

  lemma MulPositive(a: real, b: real)
    requires a > 0.0 && b > 0.0
    ensures a * b > 0.0
  {
  }

  lemma MulNonnegative(a: real, b: real)
    requires a >= 0.0 && b >= 0.0
    ensures a * b >= 0.0
  {
  }

  lemma QuotientSigns(a: real, d: real)
    requires d > 0.0
    ensures a > 0.0 ==> a / d > 0.0
    ensures a < 0.0 ==> a / d < 0.0
    ensures a == 0.0 ==> a / d == 0.0
  {
    assert a / d * d == a;
  }

  lemma MulNonpositive(a: real, b: real)
    requires a <= 0.0 && b > 0.0
    ensures a * b <= 0.0
  {
  }

  lemma MulNegative(a: real, b: real)
    requires a < 0.0 && b > 0.0
    ensures a * b < 0.0
  {
  }

  /** u = r/h of a neighbour inside the support lies in [0, 1]. */
  lemma RatioInUnit(r: real, h: real)
    requires h > 0.0 && 0.0 <= r <= h
    ensures 0.0 <= r / h <= 1.0
    ensures r < h ==> r / h < 1.0
    ensures r > 0.0 ==> r / h > 0.0
  {
    var u := r / h;
    assert u * h == r;
    QuotientSigns(r, h);
    if u > 1.0 {
      MulMonotone(h, 1.0, u);
    }
    if r < h && u >= 1.0 {
      MulMonotone(h, 1.0, u);
    }
  }

  /** Multiplying by a non-negative factor keeps the order. */
  lemma MulMonotone(a: real, x: real, y: real)
    requires a >= 0.0 && x <= y
    ensures a * x <= a * y
  {
    MulNonnegative(a, y - x);
  }

  /** A non-zero integer multiple of a non-negative length is at least that length. */
  lemma IntegerMultipleBound(j: int, b: real)
    requires b >= 0.0
    ensures j >= 1 ==> (j as real) * b >= b
    ensures j <= -1 ==> (j as real) * b <= -b
  {
    var c := j as real;
    if j >= 1 {
      MulMonotone(b, 1.0, c);
      assert b * c == c * b;
    } else if j <= -1 {
      MulMonotone(b, 1.0, -c);
      assert b * -c == -(c * b);
    }
  }

  /** A square-root function: non-negative and squaring back on non-negative input. */
  ghost predicate IsSqrt(sqrt: real -> real)
  {
    forall x :: 0.0 <= x ==> 0.0 <= sqrt(x) && sqrt(x) * sqrt(x) == x
  }

  /** The root of a positive number is positive. */
  lemma SqrtPositive(sqrt: real -> real, x: real)
    requires IsSqrt(sqrt) && x > 0.0
    ensures sqrt(x) > 0.0
  {
    assert sqrt(x) * sqrt(x) == x;
  }

  /** A cube-root function on non-negative input: `pow(x, 1.0/3.0)` for x >= 0. */
  ghost predicate IsCbrt(cbrt: real -> real)
  {
    forall x :: 0.0 <= x ==> 0.0 <= cbrt(x) && cbrt(x) * cbrt(x) * cbrt(x) == x
  }

  /** Cubing is strictly increasing on the non-negative reals. */
  lemma CubeStrictlyIncreasing(a: real, b: real)
    requires 0.0 <= a < b
    ensures a * a * a < b * b * b
  {
    var a2, b2 := a * a, b * b;
    assert a2 <= a * b;
    assert a * b < b2;
    assert a2 * a <= a2 * b;
    assert a2 * b < b2 * b;
  }

  /** A cube root of a value between two cubes lies between their bases. */
  lemma CbrtBetween(cbrt: real -> real, lo: real, hi: real, x: real)
    requires IsCbrt(cbrt)
    requires 0.0 <= lo && 0.0 <= hi
    requires lo * lo * lo <= x <= hi * hi * hi
    ensures lo <= cbrt(x) <= hi
  {
    var c := cbrt(x);
    assert 0.0 <= x;
    assert 0.0 <= c && c * c * c == x;
    if c < lo {
      CubeStrictlyIncreasing(c, lo);
    }
    if hi < c {
      CubeStrictlyIncreasing(hi, c);
    }
  }
}
