/** Scalar helpers shared by the components: numpy's `sign`, Python's `abs`
    and raising a real to a natural power (`**` with an integer exponent). */
module RealMath {

  /** Absolute value. */
  function Abs(x: real): (a: real)
    ensures a >= 0.0
    ensures a == x || a == -x
  {
    if x < 0.0 then -x else x
  }

  /** `np.sign` over the reals: -1, 0 or 1, and 0 exactly at 0. */
  function Sign(x: real): (s: real)
    ensures s == -1.0 || s == 0.0 || s == 1.0
    ensures s == 0.0 <==> x == 0.0
    ensures s * x == Abs(x)
    ensures s * Abs(x) == x
  {
    if x > 0.0 then 1.0 else if x < 0.0 then -1.0 else 0.0
  }

  /** `x ** n` for a natural exponent; `x ** 0` is 1 even for x == 0. */
  function Pow(x: real, n: nat): (p: real)
    ensures x >= 0.0 ==> p >= 0.0
    ensures x > 0.0 ==> p > 0.0
  {
    if n == 0 then 1.0 else x * Pow(x, n - 1)
  }

  /** Negating the base keeps an even power and negates an odd one. */
  lemma {:induction false} PowOfNegation(x: real, n: nat)
    ensures Pow(-x, n) == if n % 2 == 0 then Pow(x, n) else -Pow(x, n)
  {
    if n > 0 {
      PowOfNegation(x, n - 1);
    }
  }

  /** The power of the magnitude equals the power itself, up to the sign of an
      odd power of a negative base. */
  lemma PowOfAbs(x: real, n: nat)
    ensures Pow(Abs(x), n) == if n % 2 == 0 || x >= 0.0 then Pow(x, n) else -Pow(x, n)
  {
    if x < 0.0 {
      PowOfNegation(x, n);
    }
  }

  /** On the unit interval a positive power never exceeds its base. */
  lemma {:induction false} PowUnitInterval(x: real, n: nat)
    requires 0.0 <= x <= 1.0 && n >= 1
    ensures 0.0 <= Pow(x, n) <= x
  {
    if n == 1 {
      assert Pow(x, 1) == x * Pow(x, 0);
    } else {
      PowUnitInterval(x, n - 1);
      var p := Pow(x, n - 1);
      var q := Pow(x, n);
      ScaleDown(x, p, q);
    }
  }

  /** A power of a base in [-1, 1] stays in [-1, 1] in magnitude, below the base's own. */
  lemma PowMagnitudeBound(x: real, n: nat)
    requires Abs(x) <= 1.0 && n >= 1
    ensures Abs(Pow(x, n)) <= Abs(x)
  {
    PowUnitInterval(Abs(x), n);
    PowOfAbs(x, n);
  }

  /** Scaling a non-negative value by a factor of at most 1 does not increase it. */
  lemma ScaleDown(a: real, b: real, c: real)
    requires a >= 0.0 && b <= 1.0 && c == a * b
    ensures c <= a
  {
  }

  /** A fraction t in [0, 1] of d lies between 0 and d. */
  lemma FractionBetween(t: real, d: real, c: real)
    requires 0.0 <= t <= 1.0 && c == t * d
    ensures d >= 0.0 ==> 0.0 <= c <= d
    ensures d <= 0.0 ==> d <= c <= 0.0
  {
  }

  /** A quotient of a numerator in [0, d] by a positive d lies in [0, 1]. */
  lemma UnitQuotient(n: real, d: real, t: real)
    requires 0.0 <= n <= d && d > 0.0 && t == n / d
    ensures 0.0 <= t <= 1.0
  {
    assert t * d == n;
  }

  /** A product of non-negative factors is non-negative. */
  lemma MulNonneg(a: real, b: real)
    requires a >= 0.0 && b >= 0.0
    ensures a * b >= 0.0
  {
  }

  /** Multiplying by a non-negative factor keeps an ordering. */
  lemma MulMonotone(a: real, b: real, c: real)
    requires a >= 0.0 && b <= c
    ensures a * b <= a * c
  {
  }

  /** Multiplication distributes over a difference. */
  lemma Distribute(c: real, u: real, v: real)
    ensures c * (u - v) == c * u - c * v
  {
  }

  /** A slope bounded by `l` in magnitude moves a line by at most `l` times the
      run. */
  lemma SlopeBound(c: real, u: real, v: real, l: real)
    requires Abs(c) <= l && u <= v
    ensures Abs(c * v - c * u) <= l * (v - u)
  {
    var d := v - u;
    assert c * v - c * u == d * c;
    assert l * d == d * l;
    MulMonotone(d, c, l);
    MulMonotone(d, -c, l);
    assert d * (-c) == -(d * c);
  }
}
