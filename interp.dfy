/**
  Piecewise-linear interpolation with the semantics of `numpy.interp`, and the
  storage-fraction grid 0, 0.01, ..., 1 on which every operating policy is
  tabulated. Every policy builder and every policy lookup of the engines
  evaluates through `Interp`.
 */
module Interpolation {

  /** `xs` never decreases (numpy.interp's requirement on its knots). */
  predicate NonDecreasing(xs: seq<real>) {
    forall i, j :: 0 <= i <= j < |xs| ==> xs[i] <= xs[j]
  }

  predicate StrictlyIncreasing(xs: seq<real>) {
    forall i, j :: 0 <= i < j < |xs| ==> xs[i] < xs[j]
  }

  /** Every entry of `ys` lies in [lo, hi]. */
  predicate Within(ys: seq<real>, lo: real, hi: real) {
    forall k :: 0 <= k < |ys| ==> lo <= ys[k] <= hi
  }

  /** Number of points of the storage-fraction grid `arange(0, 1 + 0.01, 0.01)`. */
  const GridSize: nat := 101

  /** The storage-fraction grid: point k is k/100. */
  function Grid(): (g: seq<real>)
    ensures |g| == GridSize
    ensures forall k :: 0 <= k < |g| ==> g[k] == k as real / 100.0
  {
    seq(GridSize, k => k as real / 100.0)
  }

  lemma GridShape()
    ensures StrictlyIncreasing(Grid()) && NonDecreasing(Grid())
    ensures Grid()[0] == 0.0 && Grid()[GridSize - 1] == 1.0
    ensures Within(Grid(), 0.0, 1.0)
  {
  }

  /** The line through (x0, y0) and (x1, y1) evaluated at x, written as numpy
      writes it: slope times the offset from the left knot, plus the left value. */
  function Lerp(x0: real, x1: real, y0: real, y1: real, x: real): real
    requires x0 < x1
  {
    (y1 - y0) / (x1 - x0) * (x - x0) + y0
  }

  /** c * a <= c * b for c >= 0 and a <= b. */
  lemma MulMonotone(a: real, b: real, c: real)
    requires a <= b && 0.0 <= c
    ensures a * c <= b * c
  {
    assert b * c - a * c == (b - a) * c;
  }

  /** The offset of x within [x0, x1), as a fraction of the segment length. */
  lemma FractionInUnit(x0: real, x1: real, x: real)
    requires x0 <= x < x1
    ensures 0.0 <= (x - x0) / (x1 - x0) < 1.0
  {
    var d := x1 - x0;
    var f := (x - x0) / d;
    assert f * d == x - x0;
    if f < 0.0 {
      MulMonotone(f, 0.0, d);
    }
    if f >= 1.0 {
      MulMonotone(1.0, f, d);
    }
  }

  /** On [x0, x1) the line stays between the two end values. */
  lemma LerpWithin(x0: real, x1: real, y0: real, y1: real, x: real, lo: real, hi: real)
    requires x0 <= x < x1
    requires lo <= y0 <= hi && lo <= y1 <= hi
    ensures lo <= Lerp(x0, x1, y0, y1, x) <= hi
  {
    var d := x1 - x0;
    var f := (x - x0) / d;
    FractionInUnit(x0, x1, x);
    assert (y1 - y0) / d * (x - x0) == (y1 - y0) * f;
    assert Lerp(x0, x1, y0, y1, x) == y0 * (1.0 - f) + y1 * f;
    MulMonotone(lo, y0, 1.0 - f);
    MulMonotone(y0, hi, 1.0 - f);
    MulMonotone(lo, y1, f);
    MulMonotone(y1, hi, f);
  }

  /** With y0 <= y1 the line is non-decreasing. */
  lemma LerpMonotone(x0: real, x1: real, y0: real, y1: real, x: real, y: real)
    requires x0 <= x <= y < x1 && y0 <= y1
    ensures Lerp(x0, x1, y0, y1, x) <= Lerp(x0, x1, y0, y1, y)
  {
    var d := x1 - x0;
    var slope := (y1 - y0) / d;
    assert slope * d == y1 - y0;
    if slope < 0.0 {
      MulMonotone(slope, 0.0, d);
    }
    MulMonotone(x - x0, y - x0, slope);
  }

  /**
    numpy.interp(x, xs, ys): the left value below the first knot, the right
    value at or beyond the last knot, and otherwise the line through knots j
    and j + 1 for the last j with xs[j] <= x < xs[j + 1].
   */
  function Interp(x: real, xs: seq<real>, ys: seq<real>): (r: real)
    requires 0 < |xs| == |ys|
    requires NonDecreasing(xs)
    ensures x < xs[0] ==> r == ys[0]
    ensures xs[|xs| - 1] <= x ==> r == ys[|ys| - 1]
    decreases |xs|
  {
    if x < xs[0] || |xs| == 1 then ys[0]
    else if x < xs[1] then Lerp(xs[0], xs[1], ys[0], ys[1], x)
    else Interp(x, xs[1..], ys[1..])
  }

  /** Interpolation never leaves the range of the tabulated values. */
  lemma {:induction false} InterpWithin(x: real, xs: seq<real>, ys: seq<real>, lo: real, hi: real)
    requires 0 < |xs| == |ys| && NonDecreasing(xs)
    requires Within(ys, lo, hi)
    ensures lo <= Interp(x, xs, ys) <= hi
    decreases |xs|
  {
    if x < xs[0] || |xs| == 1 {
    } else if x < xs[1] {
      LerpWithin(xs[0], xs[1], ys[0], ys[1], x, lo, hi);
    } else {
      InterpWithin(x, xs[1..], ys[1..], lo, hi);
    }
  }

  /** A non-decreasing table gives a non-decreasing function of x. */
  lemma {:induction false} InterpMonotone(x: real, y: real, xs: seq<real>, ys: seq<real>)
    requires 0 < |xs| == |ys| && NonDecreasing(xs) && NonDecreasing(ys)
    requires x <= y
    ensures Interp(x, xs, ys) <= Interp(y, xs, ys)
    decreases |xs|
  {
    var last := ys[|ys| - 1];
    if x < xs[0] || |xs| == 1 {
      InterpWithin(y, xs, ys, ys[0], last);
    } else if x < xs[1] {
      if y < xs[1] {
        LerpMonotone(xs[0], xs[1], ys[0], ys[1], x, y);
      } else {
        LerpWithin(xs[0], xs[1], ys[0], ys[1], x, ys[0], ys[1]);
        InterpWithin(y, xs[1..], ys[1..], ys[1], last);
      }
    } else {
      InterpMonotone(x, y, xs[1..], ys[1..]);
    }
  }

  /** With distinct knots the interpolant passes through every control point. */
  lemma {:induction false} InterpAtKnot(k: nat, xs: seq<real>, ys: seq<real>)
    requires 0 < |xs| == |ys| && StrictlyIncreasing(xs)
    requires k < |xs|
    ensures NonDecreasing(xs) && Interp(xs[k], xs, ys) == ys[k]
    decreases |xs|
  {
    if k > 0 {
      InterpAtKnot(k - 1, xs[1..], ys[1..]);
    }
  }

  /** A table on the storage-fraction grid is reproduced exactly at the grid points. */
  lemma GridKnot(k: nat, ys: seq<real>)
    requires |ys| == GridSize && k < GridSize
    ensures Interp(k as real / 100.0, Grid(), ys) == ys[k]
  {
    GridShape();
    InterpAtKnot(k, Grid(), ys);
  }

  /** Every value of a table multiplied by c. */
  function Scaled(ys: seq<real>, c: real): (zs: seq<real>)
    ensures |zs| == |ys| && forall k :: 0 <= k < |ys| ==> zs[k] == ys[k] * c
  {
    seq(|ys|, k requires 0 <= k < |ys| => ys[k] * c)
  }

  /** Scaling the table scales the interpolant (`interp(...) * u_mean`). */
  lemma {:induction false} InterpScale(x: real, xs: seq<real>, ys: seq<real>, c: real)
    requires 0 < |xs| == |ys| && NonDecreasing(xs)
    ensures Interp(x, xs, Scaled(ys, c)) == Interp(x, xs, ys) * c
    decreases |xs|
  {
    var zs := Scaled(ys, c);
    if x < xs[0] || |xs| == 1 {
    } else if x < xs[1] {
      var d := xs[1] - xs[0];
      assert (zs[1] - zs[0]) / d == (ys[1] - ys[0]) / d * c;
    } else {
      assert forall k :: 0 <= k < |ys| - 1 ==> zs[1..][k] == Scaled(ys[1..], c)[k];
      assert zs[1..] == Scaled(ys[1..], c);
      InterpScale(x, xs[1..], ys[1..], c);
    }
  }
}
