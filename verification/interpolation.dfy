/** One-dimensional piecewise-linear interpolation over a table of breakpoints,
    with the clamping behaviour of numpy's `interp` (no extrapolation: below
    the first breakpoint the first value, above the last one the last value). */
module Interpolation {
  import opened RealMath

  /** The x-coordinates of a table grow strictly, so no two breakpoints share one. */
  ghost predicate StrictlyIncreasing(xs: seq<real>)
  {
    forall i, j :: 0 <= i < j < |xs| ==> xs[i] < xs[j]
  }

  /** A usable table: at least one breakpoint, one value per breakpoint. */
  ghost predicate IsTable(xs: seq<real>, ys: seq<real>)
  {
    |xs| == |ys| >= 1 && StrictlyIncreasing(xs)
  }

  /** The straight line through (x0, y0) and (x1, y1), evaluated at x, written
      as numpy writes it: slope times offset plus the left value. */
  function Lerp(x0: real, y0: real, x1: real, y1: real, x: real): real
    requires x0 < x1
  {
    (y1 - y0) / (x1 - x0) * (x - x0) + y0
  }

  /** `np.interp(x, xs, ys)`: the table is searched left to right for the
      segment [xs[j], xs[j+1]) that holds x. */
  function Interp(x: real, xs: seq<real>, ys: seq<real>): (y: real)
    requires IsTable(xs, ys)
    ensures x <= xs[0] ==> y == ys[0]
    ensures x >= xs[|xs| - 1] ==> y == ys[|ys| - 1]
    decreases |xs|
  {
    if x <= xs[0] || |xs| == 1 then ys[0]
    else if x < xs[1] then Lerp(xs[0], ys[0], xs[1], ys[1], x)
    else
      assert IsTable(xs[1..], ys[1..]);
      Interp(x, xs[1..], ys[1..])
  }

  /** The line passes through both of its defining points. */
  lemma LerpEndpoints(x0: real, y0: real, x1: real, y1: real)
    requires x0 < x1
    ensures Lerp(x0, y0, x1, y1, x0) == y0
    ensures Lerp(x0, y0, x1, y1, x1) == y1
  {
    var slope := (y1 - y0) / (x1 - x0);
    assert slope * (x1 - x0) == y1 - y0;
  }

  /** Between its defining points the line stays between their values. */
  lemma LerpBetween(x0: real, y0: real, x1: real, y1: real, x: real)
    requires x0 <= x <= x1 && x0 < x1
    ensures y0 <= y1 ==> y0 <= Lerp(x0, y0, x1, y1, x) <= y1
    ensures y1 <= y0 ==> y1 <= Lerp(x0, y0, x1, y1, x) <= y0
  {
    var t := (x - x0) / (x1 - x0);
    UnitQuotient(x - x0, x1 - x0, t);
    assert Lerp(x0, y0, x1, y1, x) == y0 + t * (y1 - y0);
    FractionBetween(t, y1 - y0, t * (y1 - y0));
  }

  /** On a bracketing segment, `Interp` is the line through its two breakpoints. */
  lemma {:induction false} InterpOnSegment(x: real, xs: seq<real>, ys: seq<real>, j: nat)
    requires IsTable(xs, ys)
    requires j + 1 < |xs| && xs[j] <= x <= xs[j + 1]
    ensures Interp(x, xs, ys) == Lerp(xs[j], ys[j], xs[j + 1], ys[j + 1], x)
  {
    LerpEndpoints(xs[j], ys[j], xs[j + 1], ys[j + 1]);
    if j == 0 {
      if x == xs[1] {
        assert IsTable(xs[1..], ys[1..]);
        assert Interp(x, xs, ys) == Interp(x, xs[1..], ys[1..]);
      }
    } else {
      assert xs[0] < xs[1] <= xs[j];
      assert IsTable(xs[1..], ys[1..]);
      InterpOnSegment(x, xs[1..], ys[1..], j - 1);
    }
  }

  /** Every breakpoint is reproduced exactly. */
  lemma InterpAtBreakpoint(xs: seq<real>, ys: seq<real>, i: nat)
    requires IsTable(xs, ys) && i < |xs|
    ensures Interp(xs[i], xs, ys) == ys[i]
  {
    if i + 1 < |xs| {
      InterpOnSegment(xs[i], xs, ys, i);
      LerpEndpoints(xs[i], ys[i], xs[i + 1], ys[i + 1]);
    }
  }

  /** Between two neighbouring breakpoints the result lies between their values. */
  lemma InterpBetween(x: real, xs: seq<real>, ys: seq<real>, j: nat)
    requires IsTable(xs, ys)
    requires j + 1 < |xs| && xs[j] <= x <= xs[j + 1]
    ensures ys[j] <= ys[j + 1] ==> ys[j] <= Interp(x, xs, ys) <= ys[j + 1]
    ensures ys[j + 1] <= ys[j] ==> ys[j + 1] <= Interp(x, xs, ys) <= ys[j]
  {
    InterpOnSegment(x, xs, ys, j);
    LerpBetween(xs[j], ys[j], xs[j + 1], ys[j + 1], x);
  }

  /** Interpolation never leaves the range of the table's values. */
  lemma {:induction false} InterpWithin(x: real, xs: seq<real>, ys: seq<real>, lo: real, hi: real)
    requires IsTable(xs, ys)
    requires forall k :: 0 <= k < |ys| ==> lo <= ys[k] <= hi
    ensures lo <= Interp(x, xs, ys) <= hi
    decreases |xs|
  {
    if x <= xs[0] || |xs| == 1 {
    } else if x < xs[1] {
      LerpBetween(xs[0], ys[0], xs[1], ys[1], x);
    } else {
      assert IsTable(xs[1..], ys[1..]);
      InterpWithin(x, xs[1..], ys[1..], lo, hi);
    }
  }
}
