/** Response curves that reshape a joystick axis reading before it drives a
    mechanism: a dual-slope piecewise-linear curve and a power curve. */
module Joysticks {
  import opened RealMath

  /** The dual-slope curve: gain `slow` up to the breakpoint `intersection`,
      gain `fast` beyond it, mirrored for negative readings. */
  datatype Piecewise = Piecewise(slow: real, fast: real, intersection: real)
  {
    /** The breakpoint is where the slow line through (0, 0) meets the fast
        line through (1, 1). */
    ghost predicate Valid()
    {
      slow != fast && intersection == (1.0 - fast) / (slow - fast)
    }

    /** `getValue(signal)`: the magnitude is scaled by `slow` up to the
        breakpoint and mapped by the fast line through (1, 1) beyond it; the
        sign is put back afterwards. Below the breakpoint this is simply
        `signal * slow`. */
    function GetValue(signal: real): (r: real)
      ensures Abs(signal) <= intersection ==> r == signal * slow
      ensures Abs(signal) > intersection ==> r == signal * fast + Sign(signal) * (1.0 - fast)
    {
      var sign := Sign(signal);
      var magnitude := Abs(signal);
      if magnitude <= intersection then sign * (magnitude * slow)
      else sign * (magnitude * fast + (1.0 - fast))
    }

    /** The larger of the two slopes in magnitude. */
    function Gain(): (g: real)
      ensures g >= Abs(slow) && g >= Abs(fast)
    {
      if Abs(slow) >= Abs(fast) then Abs(slow) else Abs(fast)
    }
  }

  /** Building a `Piecewise` either yields the curve or, when the two slopes
      are equal, fails with Python's division-by-zero error. */
  datatype PiecewiseInit = Built(curve: Piecewise) | ZeroDivisionError

  /** `Piecewise(slow, fast)`: stores both slopes and the breakpoint
      (1 - fast) / (slow - fast). */
  function NewPiecewise(slow: real, fast: real): (r: PiecewiseInit)
    ensures r.ZeroDivisionError? <==> slow == fast
    ensures r.Built? ==> r.curve.Valid() && r.curve.slow == slow && r.curve.fast == fast
  {
    if slow == fast then ZeroDivisionError
    else Built(Piecewise(slow, fast, (1.0 - fast) / (slow - fast)))
  }

  /** The two branches agree at the breakpoint, which is what the breakpoint
      is chosen for. */
  lemma PiecewiseBranchesMeet(p: Piecewise)
    requires p.Valid()
    ensures p.slow * p.intersection == p.fast * p.intersection + (1.0 - p.fast)
  {
    assert p.intersection * (p.slow - p.fast) == 1.0 - p.fast;
  }

  /** The curve is odd and passes through the origin. */
  lemma PiecewiseOdd(p: Piecewise, x: real)
    ensures p.GetValue(-x) == -p.GetValue(x)
    ensures p.GetValue(0.0) == 0.0
  {
  }

  /** Full deflection gives full output whenever the breakpoint lies inside
      the stick's travel. */
  lemma PiecewiseFullDeflection(p: Piecewise)
    requires p.intersection < 1.0
    ensures p.GetValue(1.0) == 1.0 && p.GetValue(-1.0) == -1.0
  {
  }

  /** The branches meet at the breakpoint (the defining identity of Valid(),
      free of the division). */
  ghost predicate Meets(p: Piecewise)
  {
    p.slow * p.intersection == p.fast * p.intersection + (1.0 - p.fast)
  }

  /** The curve on the non-negative half, written as the slow line up to the
      breakpoint continued by the fast line from there. */
  function NonnegValue(s: real, f: real, i: real, a: real): real
  {
    if a <= i then s * a else s * i + f * (a - i)
  }

  /** NonnegValue mirrored to the negative half. */
  function OddExtension(s: real, f: real, i: real, x: real): real
  {
    if x >= 0.0 then NonnegValue(s, f, i, x) else -NonnegValue(s, f, i, -x)
  }

  /** With meeting branches and a non-negative breakpoint, the curve is the
      odd extension of NonnegValue. */
  lemma PiecewiseSignedForm(p: Piecewise, x: real)
    requires Meets(p) && p.intersection >= 0.0
    ensures p.GetValue(x) == OddExtension(p.slow, p.fast, p.intersection, x)
  {
    var a := Abs(x);
    if a > p.intersection {
      assert p.GetValue(a) == a * p.fast + (1.0 - p.fast);
      Distribute(p.fast, a, p.intersection);
    }
    assert p.GetValue(a) == NonnegValue(p.slow, p.fast, p.intersection, a);
    PiecewiseOdd(p, x);
  }

  /** Across the breakpoint: slow line from x up to i, fast line from i to y. */
  lemma KneeBound(s: real, f: real, i: real, l: real, x: real, y: real)
    requires Abs(s) <= l && Abs(f) <= l && x <= i <= y
    ensures Abs((s * i + f * (y - i)) - s * x) <= l * (y - x)
  {
    SlopeBound(s, x, i, l);
    SlopeBound(f, i, y, l);
    Distribute(f, y, i);
    Distribute(l, y, x);
    Distribute(l, i, x);
    Distribute(l, y, i);
  }

  /** On the non-negative half the curve is Lipschitz with constant `l`, any
      bound on both slopes. */
  lemma NonnegLipschitz(s: real, f: real, i: real, l: real, x: real, y: real)
    requires Abs(s) <= l && Abs(f) <= l && 0.0 <= x <= y
    ensures Abs(NonnegValue(s, f, i, y) - NonnegValue(s, f, i, x)) <= l * (y - x)
  {
    if y <= i {
      SlopeBound(s, x, y, l);
    } else if x > i {
      SlopeBound(f, x - i, y - i, l);
    } else {
      KneeBound(s, f, i, l, x, y);
    }
  }

  /** The odd extension is Lipschitz with constant `l` on ordered inputs. */
  lemma ExtensionLipschitzOrdered(s: real, f: real, i: real, l: real, x: real, y: real)
    requires Abs(s) <= l && Abs(f) <= l && i >= 0.0 && x <= y
    ensures Abs(OddExtension(s, f, i, y) - OddExtension(s, f, i, x)) <= l * (y - x)
  {
    if 0.0 <= x {
      NonnegLipschitz(s, f, i, l, x, y);
    } else if y < 0.0 {
      NegativeLipschitz(s, f, i, l, x, y);
    } else {
      AcrossZeroLipschitz(s, f, i, l, x, y);
    }
  }

  /** The case x < 0 <= y, through the origin, where the curve is zero. */
  lemma AcrossZeroLipschitz(s: real, f: real, i: real, l: real, x: real, y: real)
    requires Abs(s) <= l && Abs(f) <= l && i >= 0.0 && x < 0.0 <= y
    ensures Abs(NonnegValue(s, f, i, y) - -NonnegValue(s, f, i, -x)) <= l * (y - x)
  {
    NonnegLipschitz(s, f, i, l, 0.0, y);
    NonnegLipschitz(s, f, i, l, 0.0, -x);
    AcrossZeroBound(NonnegValue(s, f, i, -x), NonnegValue(s, f, i, y), NonnegValue(s, f, i, 0.0), l, x, y);
  }

  /** The case x <= y < 0, the mirror image of the non-negative half. */
  lemma NegativeLipschitz(s: real, f: real, i: real, l: real, x: real, y: real)
    requires Abs(s) <= l && Abs(f) <= l && x <= y < 0.0
    ensures Abs(-NonnegValue(s, f, i, -y) - -NonnegValue(s, f, i, -x)) <= l * (y - x)
  {
    NonnegLipschitz(s, f, i, l, -y, -x);
    MirrorBound(NonnegValue(s, f, i, -x), NonnegValue(s, f, i, -y), l, x, y);
  }

  /** The arithmetic of NegativeLipschitz. */
  lemma MirrorBound(nx: real, ny: real, l: real, x: real, y: real)
    requires Abs(nx - ny) <= l * (-x - -y)
    ensures Abs(-ny - -nx) <= l * (y - x)
  {
    assert -x - -y == y - x;
  }

  /** The arithmetic of the case x < 0 <= y: both halves are measured from
      the origin, where the curve is zero. */
  lemma AcrossZeroBound(nx: real, ny: real, n0: real, l: real, x: real, y: real)
    requires n0 == 0.0 && x < 0.0 <= y
    requires Abs(ny - n0) <= l * (y - 0.0) && Abs(nx - n0) <= l * (-x - 0.0)
    ensures Abs(ny - -nx) <= l * (y - x)
  {
    Distribute(l, y, x);
    Distribute(l, y, 0.0);
    Distribute(l, -x, 0.0);
    assert l * (y - x) == l * (y - 0.0) + l * (-x - 0.0);
  }

  /** The odd extension is Lipschitz with constant `l`. */
  lemma ExtensionLipschitz(s: real, f: real, i: real, l: real, x: real, y: real)
    requires Abs(s) <= l && Abs(f) <= l && i >= 0.0
    ensures Abs(OddExtension(s, f, i, y) - OddExtension(s, f, i, x)) <= l * Abs(y - x)
  {
    if x <= y {
      ExtensionLipschitzOrdered(s, f, i, l, x, y);
      OrderedBound(OddExtension(s, f, i, x), OddExtension(s, f, i, y), l, x, y);
    } else {
      ExtensionLipschitzOrdered(s, f, i, l, y, x);
      SwapBound(OddExtension(s, f, i, x), OddExtension(s, f, i, y), l, x, y);
    }
  }

  /** `l * (y - x)` is `l * |y - x|` when x <= y. */
  lemma OrderedBound(gx: real, gy: real, l: real, x: real, y: real)
    requires x <= y && Abs(gy - gx) <= l * (y - x)
    ensures Abs(gy - gx) <= l * Abs(y - x)
  {
    assert Abs(y - x) == y - x;
  }

  /** The bound for y < x, read the other way round. */
  lemma SwapBound(gx: real, gy: real, l: real, x: real, y: real)
    requires y < x && Abs(gx - gy) <= l * (x - y)
    ensures Abs(gy - gx) <= l * Abs(y - x)
  {
    assert Abs(y - x) == x - y;
    assert Abs(gy - gx) == Abs(gx - gy);
  }

  /** With a non-negative breakpoint the curve is continuous everywhere:
      outputs differ by at most Gain() times the difference of the inputs. */
  lemma PiecewiseLipschitz(p: Piecewise, x: real, y: real)
    requires p.Valid() && p.intersection >= 0.0
    ensures Abs(p.GetValue(y) - p.GetValue(x)) <= p.Gain() * Abs(y - x)
  {
    PiecewiseBranchesMeet(p);
    PiecewiseSignedForm(p, x);
    PiecewiseSignedForm(p, y);
    ExtensionLipschitz(p.slow, p.fast, p.intersection, p.Gain(), x, y);
  }

  /** With non-negative slopes and the breakpoint in [0, 1], a reading in
      [-1, 1] gives an output in [-1, 1] of the same sign. */
  lemma PiecewiseUnitRange(p: Piecewise, x: real)
    requires p.Valid() && 0.0 <= p.intersection <= 1.0
    requires p.slow >= 0.0 && p.fast >= 0.0
    requires Abs(x) <= 1.0
    ensures Abs(p.GetValue(x)) <= 1.0
    ensures x >= 0.0 ==> p.GetValue(x) >= 0.0
    ensures x <= 0.0 ==> p.GetValue(x) <= 0.0
  {
    PiecewiseBranchesMeet(p);
    PiecewiseSignedForm(p, x);
    NonnegUnitRange(p.slow, p.fast, p.intersection, Abs(x));
  }

  /** Why the lemmas above require a breakpoint of at least 0: slopes 3 and 2
      (breakpoint -1) turn a positive reading negative, and slopes 0.2 and 0.5
      (breakpoint -5/3) jump at 0. */
  lemma PiecewiseNegativeBreakpoint()
    ensures NewPiecewise(3.0, 2.0) == Built(Piecewise(3.0, 2.0, -1.0))
    ensures Piecewise(3.0, 2.0, -1.0).GetValue(0.25) == -0.5
    ensures NewPiecewise(0.2, 0.5) == Built(Piecewise(0.2, 0.5, -5.0 / 3.0))
    ensures Piecewise(0.2, 0.5, -5.0 / 3.0).GetValue(0.0) == 0.0
    ensures Piecewise(0.2, 0.5, -5.0 / 3.0).GetValue(0.01) > 0.5
  {
  }

  /** The arithmetic of PiecewiseUnitRange, on the magnitude of the reading. */
  lemma NonnegUnitRange(s: real, f: real, i: real, a: real)
    requires s * i == f * i + (1.0 - f) && 0.0 <= i <= 1.0
    requires s >= 0.0 && f >= 0.0 && 0.0 <= a <= 1.0
    ensures 0.0 <= NonnegValue(s, f, i, a) <= 1.0
  {
    if a <= i {
      SlowBranchInUnitRange(s, f, i, a);
    } else {
      FastBranchInUnitRange(s, f, i, a);
    }
  }

  /** Up to the breakpoint: 0 <= s * a <= s * i == 1 - f * (1 - i) <= 1. */
  lemma SlowBranchInUnitRange(s: real, f: real, i: real, a: real)
    requires s * i == f * i + (1.0 - f) && i <= 1.0
    requires s >= 0.0 && f >= 0.0 && 0.0 <= a <= i
    ensures 0.0 <= s * a <= 1.0
  {
    MulNonneg(s, a);
    MulMonotone(s, a, i);
    MulNonneg(f, 1.0 - i);
    Distribute(f, 1.0, i);
  }

  /** Beyond the breakpoint: s * i + f * (a - i) == 1 - f * (1 - a), within [0, 1]. */
  lemma FastBranchInUnitRange(s: real, f: real, i: real, a: real)
    requires s * i == f * i + (1.0 - f) && 0.0 <= i
    requires s >= 0.0 && f >= 0.0 && i < a <= 1.0
    ensures 0.0 <= s * i + f * (a - i) <= 1.0
  {
    MulNonneg(s, i);
    MulNonneg(f, a - i);
    MulNonneg(f, 1.0 - a);
    Distribute(f, a, i);
    Distribute(f, 1.0, a);
  }

  /** The power curve: sign of the reading times the reading raised to
      `exponent`. */
  datatype Exponential = Exponential(exponent: nat)
  {
    /** `getValue(signal)`, as written: `np.sign(signal) * signal ** exponent`,
        where the power is taken of the signed reading, not of its magnitude.
        Zero maps to zero. */
    function GetValue(signal: real): (r: real)
      ensures signal == 0.0 ==> r == 0.0
      ensures signal > 0.0 ==> r > 0.0
    {
      Sign(signal) * Pow(signal, exponent)
    }

    /** The sign-preserving power curve: the magnitude raised to `exponent`,
        then the sign of the reading put back. */
    function SignedPower(signal: real): (r: real)
      ensures signal == 0.0 ==> r == 0.0
      ensures signal > 0.0 ==> r > 0.0
      ensures signal < 0.0 ==> r < 0.0
    {
      Sign(signal) * Pow(Abs(signal), exponent)
    }
  }

  /** For an even exponent the curve as written is the sign-preserving one. */
  lemma ExponentialEven(e: Exponential, x: real)
    requires e.exponent % 2 == 0
    ensures e.GetValue(x) == e.SignedPower(x)
    ensures e.GetValue(-x) == -e.GetValue(x)
  {
    PowOfAbs(x, e.exponent);
    PowOfAbs(-x, e.exponent);
    SignedPowerOdd(e, x);
  }

  /** For an odd exponent the sign is lost: the output is the magnitude raised
      to the exponent, never negative, and the curve is even. */
  lemma ExponentialOddExponentLosesSign(e: Exponential, x: real)
    requires e.exponent % 2 == 1
    ensures e.GetValue(x) == Pow(Abs(x), e.exponent) >= 0.0
    ensures e.GetValue(-x) == e.GetValue(x)
  {
    PowOfAbs(x, e.exponent);
    PowOfAbs(-x, e.exponent);
    assert Abs(-x) == Abs(x);
  }

  /** A concrete instance: with the cube curve, half reverse deflection gives
      one eighth FORWARD output, where the sign-preserving curve gives one
      eighth reverse. */
  lemma ExponentialCubeCounterexample()
    ensures Exponential(3).GetValue(-0.5) == 0.125
    ensures Exponential(3).SignedPower(-0.5) == -0.125
  {
    assert Pow(-0.5, 3) == -0.125;
    assert Pow(0.5, 3) == 0.125;
  }

  /** The sign-preserving curve is odd for every exponent. */
  lemma SignedPowerOdd(e: Exponential, x: real)
    ensures e.SignedPower(-x) == -e.SignedPower(x)
  {
    assert Abs(-x) == Abs(x);
  }

  /** The sign-preserving curve maps [-1, 1] into itself and never amplifies
      a reading when the exponent is at least 1. */
  lemma SignedPowerShrinks(e: Exponential, x: real)
    requires e.exponent >= 1 && Abs(x) <= 1.0
    ensures Abs(e.SignedPower(x)) <= Abs(x) <= 1.0
  {
    PowUnitInterval(Abs(x), e.exponent);
  }

  /** As written, with exponent at least 1, a reading in [-1, 1] is never
      amplified, whatever happens to its sign. */
  lemma ExponentialShrinks(e: Exponential, x: real)
    requires e.exponent >= 1 && Abs(x) <= 1.0
    ensures Abs(e.GetValue(x)) <= Abs(x)
  {
    PowMagnitudeBound(x, e.exponent);
  }

  /** On [0, 1], a curve with exponent at least 1 lies between 0 and the
      identity. */
  lemma ExponentialUnitInterval(e: Exponential, x: real)
    requires e.exponent >= 1 && 0.0 <= x <= 1.0
    ensures 0.0 <= e.GetValue(x) <= x
  {
    PowUnitInterval(x, e.exponent);
  }
}
