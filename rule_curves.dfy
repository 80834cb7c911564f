/**
  Seasonal rule curves: `rule_curve` of iRONS/Software/operating_rule_curves.py
  and `curve` / `rule_curve` of
  iRONS/Functions/Reservoir_operating_policy/Operating_rule_curves.py.

  A curve is a list of control points (day of year, value). The days are
  laid on one axis that starts at the first point's day `d0`: a later point
  whose day comes before `d0` is moved on by 366 days and the last point is
  put at `d0 + 366`. The curve is interpolated on the days `d0 .. d0 + 366`
  and then read back into 366 day-of-year columns. Days of year come from
  parsing '%d %b' dates, so they lie in 1..365 (the year 1900 is not a leap
  year); they are given here as integers.
 */
module RuleCurves {
  import opened Tables
  import opened Interpolation

  /** Number of day columns of a resampled curve. */
  const DaysInYear: int := 366

  /** A day of year that a '%d %b' date can have. */
  predicate IsYearDay(d: int) {
    1 <= d <= 365
  }

  /** The control-point days of a curve: at least two points (with one
      point the read-back indexes past the interpolated days), each a day of
      the year. */
  predicate ValidDays(days: seq<int>) {
    2 <= |days| && forall i :: 0 <= i < |days| ==> IsYearDay(days[i])
  }

  /** `ydayi`: the position of control point i on the axis that starts at the
      first point's day. */
  function Knots(days: seq<int>): seq<real>
    requires 2 <= |days|
  {
    seq(|days|, i requires 0 <= i < |days| =>
      if i == |days| - 1 then (days[0] + DaysInYear) as real
      else if days[i] < days[0] then (days[i] + DaysInYear) as real
      else days[i] as real)
  }

  /** numpy.interp needs the positions in order: the points follow each
      other around the year from the first one. */
  predicate InOrder(days: seq<int>) {
    ValidDays(days) && NonDecreasing(Knots(days))
  }

  /**
    The axis starts at the first point's day and ends 366 days later; every
    other point sits at its own day or 366 days after it, inside
    `[d0, d0 + 366)`.
   */
  lemma KnotsShape(days: seq<int>)
    requires ValidDays(days)
    ensures var k := Knots(days);
      && |k| == |days|
      && k[0] == days[0] as real && k[|k| - 1] == (days[0] + DaysInYear) as real
      && forall i :: 0 < i < |k| - 1 ==>
           (k[i] == days[i] as real || k[i] == (days[i] + DaysInYear) as real)
           && days[0] as real <= k[i] < (days[0] + DaysInYear) as real
  {
    var k := Knots(days);
    forall i | 0 < i < |k| - 1
      ensures days[0] as real <= k[i] < (days[0] + DaysInYear) as real
    {
      assert IsYearDay(days[i]) && IsYearDay(days[0]);
    }
  }

  /** The loop over the control points that fills `ydayi`. */
  method Rotate(days: seq<int>) returns (ydayi: array<real>)
    requires 2 <= |days|
    ensures fresh(ydayi) && ydayi[..] == Knots(days)
  {
    var n := |days|;
    ydayi := new real[n];
    ydayi[0] := days[0] as real;
    var i := 1;
    while i < n
      invariant 1 <= i <= n
      invariant forall l :: 0 <= l < i ==>
        ydayi[l] == (if days[l] < days[0] then (days[l] + DaysInYear) as real else days[l] as real)
    {
      if days[i] < days[0] {
        ydayi[i] := (days[i] + DaysInYear) as real;
      } else {
        ydayi[i] := days[i] as real;
      }
      i := i + 1;
    }
    ydayi[n - 1] := (days[0] + DaysInYear) as real;
  }

  /** `yday`: the days of the year in the order they occur from `d0` on,
      `d0 .. 366` and then `1 .. d0 - 1`. */
  function YearOrder(d0: int): seq<int> {
    seq(DaysInYear, p requires 0 <= p < DaysInYear =>
      if p <= DaysInYear - d0 then d0 + p else p + d0 - DaysInYear)
  }

  /** Where day d sits in `YearOrder(d0)`, i.e. `np.where(yday == d)`. */
  function Position(d0: int, d: int): int {
    if d >= d0 then d - d0 else d + DaysInYear - d0
  }

  /**
    `YearOrder(d0)` lists every day 1..366 exactly once: each entry is a
    day whose position is that entry's index, and each day is found at its
    position. So every day column is written exactly once.
   */
  lemma YearOrderIsPermutation(d0: int)
    requires IsYearDay(d0)
    ensures var yday := YearOrder(d0);
      && |yday| == DaysInYear
      && (forall p :: 0 <= p < DaysInYear ==> 1 <= yday[p] <= DaysInYear && Position(d0, yday[p]) == p)
      && (forall d :: 1 <= d <= DaysInYear ==> 0 <= Position(d0, d) < DaysInYear && yday[Position(d0, d)] == d)
  {
    var yday := YearOrder(d0);
    forall p | 0 <= p < DaysInYear
      ensures 1 <= yday[p] <= DaysInYear && Position(d0, yday[p]) == p
    {
      if p <= DaysInYear - d0 {
        assert yday[p] == d0 + p;
      } else {
        assert yday[p] == p + d0 - DaysInYear;
      }
    }
  }

  /** The axis position of day d: the day itself from `d0` on, a year later before it. */
  function Shifted(d0: int, d: int): int {
    if d >= d0 then d else d + DaysInYear
  }

  /** `s_ydate`: the curve interpolated on the days `d0 .. d0 + 366` (367 values). */
  function Ydate(days: seq<int>, values: seq<real>): seq<real>
    requires InOrder(days) && |values| == |days|
  {
    seq(DaysInYear + 1, p requires 0 <= p <= DaysInYear =>
      Interp((days[0] + p) as real, Knots(days), values))
  }

  /** The value the curve gives day-of-year d (column d - 1). */
  function DayValue(days: seq<int>, values: seq<real>, d: int): real
    requires InOrder(days) && |values| == |days|
  {
    Interp(Shifted(days[0], d) as real, Knots(days), values)
  }

  /** Reading `s_ydate` at the position of day d gives the curve at day d. */
  lemma YdateAtPosition(days: seq<int>, values: seq<real>, d: int)
    requires InOrder(days) && |values| == |days| && 1 <= d <= DaysInYear
    ensures 0 <= Position(days[0], d) <= DaysInYear
    ensures Ydate(days, values)[Position(days[0], d)] == DayValue(days, values, d)
  {
    assert days[0] + Position(days[0], d) == Shifted(days[0], d);
  }

  /**
    Column `d0 - 1` holds the first control value: at `d0` the curve starts
    at the first point (when the next point lies later on the axis).
   */
  lemma FirstDayValue(days: seq<int>, values: seq<real>)
    requires InOrder(days) && |values| == |days|
    requires Knots(days)[0] < Knots(days)[1]
    ensures DayValue(days, values, days[0]) == values[0]
    ensures Ydate(days, values)[0] == values[0]
  {
    var k := Knots(days);
    var x := days[0] as real;
    assert k[0] == x;
    assert Lerp(k[0], k[1], values[0], values[1], x) == values[0];
  }

  /** `s_ydate` ends at the last control value (the last point sits at `d0 + 366`). */
  lemma YdateLast(days: seq<int>, values: seq<real>)
    requires InOrder(days) && |values| == |days|
    ensures Ydate(days, values)[DaysInYear] == values[|values| - 1]
  {
    assert Knots(days)[|days| - 1] == (days[0] + DaysInYear) as real;
  }

  /** A curve never leaves the range of its control values. */
  lemma DayValueWithin(days: seq<int>, values: seq<real>, d: int, lo: real, hi: real)
    requires InOrder(days) && |values| == |days| && Within(values, lo, hi)
    ensures lo <= DayValue(days, values, d) <= hi
  {
    InterpWithin(Shifted(days[0], d) as real, Knots(days), values, lo, hi);
  }

  /** The inner loop of the read-back: row j of `table` gets `s_ydate` in day order. */
  method ReadBackRow(table: array2<real>, j: nat, days: seq<int>, values: seq<real>)
    requires InOrder(days) && |values| == |days|
    requires j < table.Length0 && table.Length1 == DaysInYear
    modifies table
    ensures forall i :: 0 <= i < DaysInYear ==> table[j, i] == DayValue(days, values, i + 1)
    ensures forall r, i :: 0 <= r < table.Length0 && r != j && 0 <= i < DaysInYear ==> table[r, i] == old(table[r, i])
  {
    var sYdate := Ydate(days, values);
    var d0 := days[0];
    var i := 0;
    while i < DaysInYear
      invariant 0 <= i <= DaysInYear
      invariant forall l :: 0 <= l < i ==> table[j, l] == DayValue(days, values, l + 1)
      invariant forall r, l :: 0 <= r < table.Length0 && r != j && 0 <= l < DaysInYear ==> table[r, l] == old(table[r, l])
    {
      YdateAtPosition(days, values, i + 1);
      table[j, i] := sYdate[Position(d0, i + 1)];
      i := i + 1;
    }
  }

  /** The control values of every curve of a table: one row per curve, one
      column per control point. */
  predicate Fits(days: seq<int>, points: Matrix) {
    InOrder(days) && forall j :: 0 <= j < |points| ==> |points[j]| == |days|
  }

  /**
    The resampling of `rule_curve` (iRONS/Software): one row per curve and
    366 columns, column `d - 1` of row j holding curve j at day d.
   */
  method Resample(days: seq<int>, points: Matrix) returns (table: array2<real>)
    requires Fits(days, points)
    ensures fresh(table) && table.Length0 == |points| && table.Length1 == DaysInYear
    ensures forall j, i :: 0 <= j < |points| && 0 <= i < DaysInYear ==>
      table[j, i] == DayValue(days, points[j], i + 1)
  {
    var ydayi := Rotate(days);
    table := new real[|points|, DaysInYear];
    var j := 0;
    while j < |points|
      invariant 0 <= j <= |points|
      invariant forall r, i :: 0 <= r < j && 0 <= i < DaysInYear ==> table[r, i] == DayValue(days, points[r], i + 1)
    {
      ReadBackRow(table, j, days, points[j]);
      j := j + 1;
    }
  }

  /**
    `rule_curve` of iRONS/Software/operating_rule_curves.py: the storage
    curves and the release rules are resampled by the same procedure, each
    with its own dates.
   */
  method SoftwareRuleCurve(curveDays: seq<int>, curves: Matrix, ruleDays: seq<int>, rules: Matrix)
    returns (sYday: array2<real>, rYday: array2<real>)
    requires Fits(curveDays, curves) && Fits(ruleDays, rules)
    ensures fresh(sYday) && sYday.Length0 == |curves| && sYday.Length1 == DaysInYear
    ensures fresh(rYday) && rYday.Length0 == |rules| && rYday.Length1 == DaysInYear
    ensures forall j, i :: 0 <= j < |curves| && 0 <= i < DaysInYear ==>
      sYday[j, i] == DayValue(curveDays, curves[j], i + 1)
    ensures forall j, i :: 0 <= j < |rules| && 0 <= i < DaysInYear ==>
      rYday[j, i] == DayValue(ruleDays, rules[j], i + 1)
  {
    sYday := Resample(curveDays, curves);
    rYday := Resample(ruleDays, rules);
  }

  /**
    `curve` of iRONS/Functions/.../Operating_rule_curves.py: one curve,
    giving the 367 interpolated values from `d0` on and the 366 day
    columns.
   */
  method Curve(days: seq<int>, values: seq<real>) returns (sYdate: seq<real>, sYday: array<real>)
    requires InOrder(days) && |values| == |days|
    ensures |sYdate| == DaysInYear + 1
    ensures forall p :: 0 <= p <= DaysInYear ==> sYdate[p] == Interp((days[0] + p) as real, Knots(days), values)
    ensures fresh(sYday) && sYday.Length == DaysInYear
    ensures forall i :: 0 <= i < DaysInYear ==> sYday[i] == DayValue(days, values, i + 1)
  {
    var ydayi := Rotate(days);
    var si := new real[|days|];
    var k := 0;
    while k < |days|
      invariant 0 <= k <= |days|
      invariant forall l :: 0 <= l < k ==> si[l] == values[l]
    {
      si[k] := values[k];
      k := k + 1;
    }
    assert si[..] == values;
    sYdate := Ydate(days, si[..]);
    var d0 := days[0];
    sYday := new real[DaysInYear];
    var i := 0;
    while i < DaysInYear
      invariant 0 <= i <= DaysInYear
      invariant forall l :: 0 <= l < i ==> sYday[l] == DayValue(days, values, l + 1)
    {
      YdateAtPosition(days, values, i + 1);
      sYday[i] := sYdate[Position(d0, i + 1)];
      i := i + 1;
    }
  }

  // ---------------------------------------------------------------------
  // Release bands (`rule_curve` of iRONS/Functions)
  // ---------------------------------------------------------------------

  /** `np.ndim` of the 2-D curve table: the number of thresholds read. */
  const TableDims: nat := 2

  /** The release after checking the first n thresholds in turn: each
      threshold below x replaces the release by the next band's. */
  function BandAfter(release: seq<real>, thresholds: seq<real>, x: real, n: nat): real
    requires n <= |thresholds| && |thresholds| < |release|
  {
    if n == 0 then release[0]
    else if x > thresholds[n - 1] then release[n]
    else BandAfter(release, thresholds, x, n - 1)
  }

  /**
    The band chosen is `release[j + 1]` for the last threshold j (of the
    first n) that x exceeds, and `release[0]` when x exceeds none.
   */
  lemma {:induction false} BandSelection(release: seq<real>, thresholds: seq<real>, x: real, n: nat)
    requires n <= |thresholds| && |thresholds| < |release|
    ensures (forall j :: 0 <= j < n ==> x <= thresholds[j]) ==> BandAfter(release, thresholds, x, n) == release[0]
    ensures forall j :: (0 <= j < n && x > thresholds[j] && (forall l :: j < l < n ==> x <= thresholds[l])
      ==> BandAfter(release, thresholds, x, n) == release[j + 1])
  {
    if n > 0 {
      BandSelection(release, thresholds, x, n - 1);
      forall j | 0 <= j < n && x > thresholds[j] && (forall l :: j < l < n ==> x <= thresholds[l])
        ensures BandAfter(release, thresholds, x, n) == release[j + 1]
      {
        if j < n - 1 {
          assert x <= thresholds[n - 1];
        }
      }
    }
  }

  /** With non-decreasing releases the band release never decreases as the
      storage fraction grows. The thresholds need not be ordered: a larger
      fraction crosses every threshold a smaller one crosses, so the last
      crossed band can only move up. */
  lemma {:induction false} BandMonotone(release: seq<real>, thresholds: seq<real>, x: real, y: real, n: nat)
    requires n <= |thresholds| && |thresholds| < |release|
    requires NonDecreasing(release) && x <= y
    ensures BandAfter(release, thresholds, x, n) <= BandAfter(release, thresholds, y, n)
  {
    if n > 0 {
      BandMonotone(release, thresholds, x, y, n - 1);
      if !(x > thresholds[n - 1]) && y > thresholds[n - 1] {
        BandAtMost(release, thresholds, x, n - 1);
      }
    }
  }

  /** After n thresholds the band release is at most `release[n]` (releases
      non-decreasing). */
  lemma {:induction false} BandAtMost(release: seq<real>, thresholds: seq<real>, x: real, n: nat)
    requires n <= |thresholds| && |thresholds| < |release|
    requires NonDecreasing(release)
    ensures BandAfter(release, thresholds, x, n) <= release[n]
  {
    if n > 0 && !(x > thresholds[n - 1]) {
      BandAtMost(release, thresholds, x, n - 1);
    }
  }

  /** The thresholds `rule_curve` compares against: column 0 of the first
      `np.ndim` rows of the curve table. */
  function Thresholds(sYday: Matrix): seq<real>
    requires TableDims <= |sYday| && forall j :: 0 <= j < |sYday| ==> 0 < |sYday[j]|
  {
    seq(TableDims, j requires 0 <= j < TableDims => sYday[j][0])
  }

  /** The row loop of `rule_curve`: entry i of row t gets the band release at grid point i. */
  method BandRow(rc: array2<real>, t: nat, release: seq<real>, th: seq<real>)
    requires t < rc.Length0 && rc.Length1 == GridSize
    requires |th| == TableDims < |release|
    modifies rc
    ensures forall i :: 0 <= i < GridSize ==> rc[t, i] == BandAfter(release, th, i as real / 100.0, TableDims)
    ensures forall r, i :: 0 <= r < rc.Length0 && r != t && 0 <= i < GridSize ==> rc[r, i] == old(rc[r, i])
  {
    var i := 0;
    while i < GridSize
      invariant 0 <= i <= GridSize
      invariant forall l :: 0 <= l < i ==> rc[t, l] == BandAfter(release, th, l as real / 100.0, TableDims)
      invariant forall r, l :: 0 <= r < rc.Length0 && r != t && 0 <= l < GridSize ==> rc[r, l] == old(rc[r, l])
    {
      var x := i as real / 100.0;
      rc[t, i] := release[0];
      var j := 0;
      while j < TableDims
        invariant 0 <= j <= TableDims
        invariant rc[t, i] == BandAfter(release, th, x, j)
        invariant forall l :: 0 <= l < i ==> rc[t, l] == BandAfter(release, th, l as real / 100.0, TableDims)
        invariant forall r, l :: 0 <= r < rc.Length0 && r != t && 0 <= l < GridSize ==> rc[r, l] == old(rc[r, l])
      {
        if x > th[j] {
          rc[t, i] := release[j + 1];
        }
        j := j + 1;
      }
      i := i + 1;
    }
  }

  /**
    `rule_curve` of iRONS/Functions/.../Operating_rule_curves.py: a
    T x 101 table whose rows are all the same (the time step is not used),
    entry i being the band release at storage fraction i/100 chosen by the
    day-0 thresholds of the first two curves.
   */
  method FunctionsRuleCurve(release: seq<real>, steps: nat, sYday: Matrix) returns (rc: array2<real>)
    requires TableDims <= |sYday| && forall j :: 0 <= j < |sYday| ==> 0 < |sYday[j]|
    requires TableDims < |release|
    ensures fresh(rc) && rc.Length0 == steps && rc.Length1 == GridSize
    ensures forall t, i :: 0 <= t < steps && 0 <= i < GridSize ==>
      rc[t, i] == BandAfter(release, Thresholds(sYday), i as real / 100.0, TableDims)
  {
    var th := Thresholds(sYday);
    rc := new real[steps, GridSize];
    var t := 0;
    while t < steps
      invariant 0 <= t <= steps
      invariant forall r, i :: 0 <= r < t && 0 <= i < GridSize ==>
        rc[r, i] == BandAfter(release, th, i as real / 100.0, TableDims)
    {
      BandRow(rc, t, release, th);
      t := t + 1;
    }
  }
}
