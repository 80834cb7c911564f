/**
  The fixed-arity operating policies `three_points_policy`,
  `four_points_policy` and `five_points_policy` of
  iRONS/Toolbox/Reservoir_operating_policy/Operating_policy_functions.py (a
  copy of `four_points_policy` also sits in
  Toolbox/Reservoir_system_simulation/Res_sys_sim.py). Each clips the
  middle control points against the last one only, keeps the end storages
  as given (they are not forced to 0 and 1) and returns numpy.interp of the
  knots times the mean release `u_mean`, at one storage fraction or on the
  101-point grid.
 */
module PointPolicies {
  import opened Wrappers
  import opened Interpolation
  import opened ReservoirStep
  import opened PiecewisePolicy

  /** The knots handed to numpy.interp. */
  datatype Knots = Knots(si: seq<real>, ui: seq<real>)

  /** numpy.interp accepts the knots: as many storages as releases, sorted storages. */
  predicate Usable(k: Knots) {
    0 < |k.si| == |k.ui| && NonDecreasing(k.si)
  }

  /** `np.min([a, b, c])`. */
  function Min3(a: real, b: real, c: real): real {
    Min(a, Min(b, c))
  }

  /** `np.interp(s, si, ui) * u_mean` at one storage fraction. */
  function EvalAt(k: Knots, uMean: real, x: real): real
    requires Usable(k)
  {
    Interp(x, k.si, k.ui) * uMean
  }

  /** The policy at the given storage fraction (a one-entry result) or on the whole grid. */
  function Evaluate(k: Knots, uMean: real, storage: Option<real>): seq<real>
    requires Usable(k)
  {
    if storage.Some? then [EvalAt(k, uMean, storage.value)]
    else seq(GridSize, i requires 0 <= i < GridSize => EvalAt(k, uMean, i as real / 100.0))
  }

  /** With u_mean >= 0 the policy at x lies between lo and hi times u_mean
      when every release knot does. */
  lemma EvalAtWithin(k: Knots, uMean: real, x: real, lo: real, hi: real)
    requires Usable(k) && 0.0 <= uMean && Within(k.ui, lo, hi)
    ensures lo * uMean <= EvalAt(k, uMean, x) <= hi * uMean
  {
    var v := Interp(x, k.si, k.ui);
    InterpWithin(x, k.si, k.ui, lo, hi);
    MulMonotone(lo, v, uMean);
    MulMonotone(v, hi, uMean);
  }

  /** With u_mean >= 0 and sorted release knots the policy never decreases with storage. */
  lemma EvalAtMonotone(k: Knots, uMean: real, x: real, y: real)
    requires Usable(k) && 0.0 <= uMean && NonDecreasing(k.ui) && x <= y
    ensures EvalAt(k, uMean, x) <= EvalAt(k, uMean, y)
  {
    InterpMonotone(x, y, k.si, k.ui);
    MulMonotone(Interp(x, k.si, k.ui), Interp(y, k.si, k.ui), uMean);
  }

  /**
    At one storage fraction the policy is a single value: below the first
    storage knot the first release knot times u_mean, at or above the last
    one the last release knot times u_mean.
   */
  lemma EvaluateEnds(k: Knots, uMean: real, x: real)
    requires Usable(k)
    ensures var u := Evaluate(k, uMean, Some(x));
      && |u| == 1 && u[0] == EvalAt(k, uMean, x)
      && (x < k.si[0] ==> u[0] == k.ui[0] * uMean)
      && (k.si[|k.si| - 1] <= x ==> u[0] == k.ui[|k.ui| - 1] * uMean)
  {
  }

  /**
    The evaluated policy has one entry per requested storage; with
    u_mean >= 0 every value lies between the smallest and largest release
    knot (times u_mean), and with sorted release knots the grid values never
    decrease.
   */
  lemma EvaluateShape(k: Knots, uMean: real, storage: Option<real>, lo: real, hi: real)
    requires Usable(k)
    ensures var u := Evaluate(k, uMean, storage);
      && |u| == (if storage.Some? then 1 else GridSize)
      && (0.0 <= uMean && Within(k.ui, lo, hi) ==> Within(u, lo * uMean, hi * uMean))
      && (storage.None? && NonDecreasing(k.ui) && 0.0 <= uMean ==> NonDecreasing(u))
  {
    var u := Evaluate(k, uMean, storage);
    if 0.0 <= uMean {
      if Within(k.ui, lo, hi) {
        forall i | 0 <= i < |u|
          ensures lo * uMean <= u[i] <= hi * uMean
        {
          EvalAtWithin(k, uMean, if storage.Some? then storage.value else i as real / 100.0, lo, hi);
        }
      }
      if storage.None? && NonDecreasing(k.ui) {
        forall i, j | 0 <= i <= j < GridSize
          ensures u[i] <= u[j]
        {
          EvalAtMonotone(k, uMean, i as real / 100.0, j as real / 100.0);
        }
      }
    }
  }

  // ---------------------------------------------------------------------
  // Three points
  // ---------------------------------------------------------------------

  function ThreeKnots(x0: Point, x1: Point, x2: Point): Knots {
    Knots([x0.s, Min(x1.s, x2.s), x2.s],
          [Min3(x0.u, x1.u, x2.u), Min(x1.u, x2.u), x2.u])
  }

  /**
    The middle storage is clipped to the last; the release knots never
    decrease, start at the smallest release of the three points and end at
    the last one's; the storage knots are sorted exactly when the first
    storage is at most the other two.
   */
  lemma ThreeKnotsShape(x0: Point, x1: Point, x2: Point)
    ensures var k := ThreeKnots(x0, x1, x2);
      && |k.si| == |k.ui| == 3
      && k.si[1] <= x2.s && NonDecreasing(k.ui)
      && k.ui[0] <= x0.u && k.ui[0] <= x1.u && k.ui[0] <= x2.u && k.ui[2] == x2.u
      && Within(k.ui, Min3(x0.u, x1.u, x2.u), x2.u)
      && (NonDecreasing(k.si) <==> x0.s <= x1.s && x0.s <= x2.s)
  {
    var k := ThreeKnots(x0, x1, x2);
    if x0.s <= x1.s && x0.s <= x2.s {
      assert forall i, j :: 0 <= i <= j < 3 ==> k.si[i] <= k.si[j];
    }
    if NonDecreasing(k.si) {
      assert k.si[0] <= k.si[1];
    }
  }

  /** `three_points_policy`. */
  function ThreePointsPolicy(x0: Point, x1: Point, x2: Point, uMean: real, storage: Option<real>): seq<real>
    requires x0.s <= x1.s && x0.s <= x2.s
  {
    ThreeKnotsShape(x0, x1, x2);
    Evaluate(ThreeKnots(x0, x1, x2), uMean, storage)
  }

  /** With u_mean >= 0 the three-point policy never decreases with storage
      on the grid. */
  lemma ThreePointsMonotone(x0: Point, x1: Point, x2: Point, uMean: real)
    requires x0.s <= x1.s && x0.s <= x2.s && 0.0 <= uMean
    ensures var u := ThreePointsPolicy(x0, x1, x2, uMean, None);
      |u| == GridSize && NonDecreasing(u)
  {
    ThreeKnotsShape(x0, x1, x2);
    EvaluateShape(ThreeKnots(x0, x1, x2), uMean, None, 0.0, 0.0);
  }

  /** With u_mean >= 0 the three-point policy stays between the smallest
      release of the three points and the last point's release, both times
      u_mean. */
  lemma ThreePointsWithin(x0: Point, x1: Point, x2: Point, uMean: real, storage: Option<real>)
    requires x0.s <= x1.s && x0.s <= x2.s && 0.0 <= uMean
    ensures var u := ThreePointsPolicy(x0, x1, x2, uMean, storage);
      && |u| == (if storage.Some? then 1 else GridSize)
      && Within(u, Min3(x0.u, x1.u, x2.u) * uMean, x2.u * uMean)
  {
    ThreeKnotsShape(x0, x1, x2);
    EvaluateShape(ThreeKnots(x0, x1, x2), uMean, storage, Min3(x0.u, x1.u, x2.u), x2.u);
  }

  /** Below the first storage the three-point policy is the smallest release
      of the three points times u_mean, and from the last storage on the last
      release times u_mean. */
  lemma ThreePointsEnds(x0: Point, x1: Point, x2: Point, uMean: real, x: real)
    requires x0.s <= x1.s && x0.s <= x2.s
    ensures var u := ThreePointsPolicy(x0, x1, x2, uMean, Some(x));
      && |u| == 1
      && (x < x0.s ==> u[0] == Min3(x0.u, x1.u, x2.u) * uMean)
      && (x2.s <= x ==> u[0] == x2.u * uMean)
  {
    ThreeKnotsShape(x0, x1, x2);
    EvaluateEnds(ThreeKnots(x0, x1, x2), uMean, x);
  }

  // ---------------------------------------------------------------------
  // Four points
  // ---------------------------------------------------------------------

  function FourKnots(x0: Point, x1: Point, x2: Point, x3: Point): Knots {
    Knots([x0.s, Min(x1.s, x3.s), Min(x2.s, x3.s), x3.s],
          [Min3(x0.u, x1.u, x3.u), Min(x1.u, x3.u), Min(x2.u, x3.u), x3.u])
  }

  /**
    The middle points are clipped against the last point only: both middle
    storages and releases are at most the last point's, which is kept; the
    first release is the smallest of points 0, 1 and 3 and ignores point 2.
   */
  lemma FourKnotsShape(x0: Point, x1: Point, x2: Point, x3: Point, other: Point)
    ensures var k := FourKnots(x0, x1, x2, x3);
      && |k.si| == |k.ui| == 4
      && k.si[1] <= x3.s && k.si[2] <= x3.s && k.si[3] == x3.s
      && k.ui[1] <= x3.u && k.ui[2] <= x3.u && k.ui[3] == x3.u
      && k.ui[0] <= k.ui[1]
      && (forall lo :: lo <= x0.u && lo <= x1.u && lo <= x2.u && lo <= x3.u ==> Within(k.ui, lo, x3.u))
      && k.ui[0] == FourKnots(x0, x1, other, x3).ui[0]
  {
  }

  /** The middle points are not clipped against each other: the knots can
      come out unsorted. */
  lemma FourKnotsUnordered()
    ensures var k := FourKnots(Point(0.0, 0.0), Point(0.8, 5.0), Point(0.5, 3.0), Point(1.0, 10.0));
      k.si == [0.0, 0.8, 0.5, 1.0] && !NonDecreasing(k.si)
      && k.ui == [0.0, 5.0, 3.0, 10.0] && !NonDecreasing(k.ui)
  {
    var k := FourKnots(Point(0.0, 0.0), Point(0.8, 5.0), Point(0.5, 3.0), Point(1.0, 10.0));
    assert k.si[1] > k.si[2];
    assert k.ui[1] > k.ui[2];
  }

  /** The four knots are sorted when the middle storages are ordered and above the first. */
  predicate FourOrdered(x0: Point, x1: Point, x2: Point, x3: Point) {
    x0.s <= x1.s && x0.s <= x2.s && x0.s <= x3.s && Min(x1.s, x3.s) <= Min(x2.s, x3.s)
  }

  /** The four-point knots of ordered points are sorted, as numpy.interp needs. */
  lemma FourKnotsSorted(x0: Point, x1: Point, x2: Point, x3: Point)
    requires FourOrdered(x0, x1, x2, x3)
    ensures Usable(FourKnots(x0, x1, x2, x3))
  {
    var k := FourKnots(x0, x1, x2, x3);
    assert forall i, j :: 0 <= i <= j < 4 ==> k.si[i] <= k.si[j];
  }

  /** `four_points_policy`. */
  function FourPointsPolicy(x0: Point, x1: Point, x2: Point, x3: Point, uMean: real, storage: Option<real>): seq<real>
    requires FourOrdered(x0, x1, x2, x3)
  {
    FourKnotsSorted(x0, x1, x2, x3);
    Evaluate(FourKnots(x0, x1, x2, x3), uMean, storage)
  }

  /** With u_mean >= 0 every value of the four-point policy lies between any
      lower bound of the four releases and the last release, both times
      u_mean. */
  lemma FourPointsWithin(x0: Point, x1: Point, x2: Point, x3: Point, uMean: real, storage: Option<real>, lo: real)
    requires FourOrdered(x0, x1, x2, x3) && 0.0 <= uMean
    requires lo <= x0.u && lo <= x1.u && lo <= x2.u && lo <= x3.u
    ensures var u := FourPointsPolicy(x0, x1, x2, x3, uMean, storage);
      && |u| == (if storage.Some? then 1 else GridSize)
      && Within(u, lo * uMean, x3.u * uMean)
  {
    var k := FourKnots(x0, x1, x2, x3);
    FourKnotsSorted(x0, x1, x2, x3);
    FourKnotsShape(x0, x1, x2, x3, x2);
    assert Within(k.ui, lo, x3.u);
    EvaluateShape(k, uMean, storage, lo, x3.u);
  }

  /**
    Below the first storage the four-point policy is the smallest release of
    points 0, 1 and 3 times u_mean (point 2 plays no part); from the last
    storage on it is the last release times u_mean.
   */
  lemma FourPointsEnds(x0: Point, x1: Point, x2: Point, x3: Point, uMean: real, x: real)
    requires FourOrdered(x0, x1, x2, x3)
    ensures var u := FourPointsPolicy(x0, x1, x2, x3, uMean, Some(x));
      && |u| == 1
      && (x < x0.s ==> u[0] == Min3(x0.u, x1.u, x3.u) * uMean)
      && (x3.s <= x ==> u[0] == x3.u * uMean)
  {
    FourKnotsSorted(x0, x1, x2, x3);
    EvaluateEnds(FourKnots(x0, x1, x2, x3), uMean, x);
  }

  /**
    The copy in Toolbox/Reservoir_system_simulation/Res_sys_sim.py is used
    with the first storage at 0 and the last at 1; on the grid the policy
    then starts at the smallest of the releases of points 0, 1 and 3 and
    ends at the last release, both times u_mean.
   */
  lemma FourPointsGridEnds(u0: real, x1: Point, x2: Point, u1: real, uMean: real)
    requires FourOrdered(Point(0.0, u0), x1, x2, Point(1.0, u1))
    requires 0.0 < Min(x1.s, 1.0)
    ensures var u := FourPointsPolicy(Point(0.0, u0), x1, x2, Point(1.0, u1), uMean, None);
      u[0] == Min3(u0, x1.u, u1) * uMean && u[GridSize - 1] == u1 * uMean
  {
    var k := FourKnots(Point(0.0, u0), x1, x2, Point(1.0, u1));
    FourKnotsSorted(Point(0.0, u0), x1, x2, Point(1.0, u1));
    assert Interp(0.0, k.si, k.ui) == k.ui[0];
  }

  // ---------------------------------------------------------------------
  // Five points
  // ---------------------------------------------------------------------

  /** The fourth release knot repeats the third (`min(x2.u, x4.u)`). */
  function FiveKnots(x0: Point, x1: Point, x2: Point, x3: Point, x4: Point): Knots {
    Knots([x0.s, Min(x1.s, x4.s), Min(x2.s, x4.s), Min(x3.s, x4.s), x4.s],
          [Min3(x0.u, x1.u, x4.u), Min(x1.u, x4.u), Min(x2.u, x4.u), Min(x2.u, x4.u), x4.u])
  }

  /**
    The middle points are clipped against the last only; the release of
    point 3 never reaches the knots, so it cannot change the policy.
   */
  lemma FiveKnotsShape(x0: Point, x1: Point, x2: Point, x3: Point, x4: Point, v: real)
    ensures var k := FiveKnots(x0, x1, x2, x3, x4);
      && |k.si| == |k.ui| == 5
      && k.si[1] <= x4.s && k.si[2] <= x4.s && k.si[3] <= x4.s && k.si[4] == x4.s
      && k.ui[1] <= x4.u && k.ui[2] <= x4.u && k.ui[3] == k.ui[2] && k.ui[4] == x4.u
      && k == FiveKnots(x0, x1, x2, Point(x3.s, v), x4)
  {
  }

  /** The five knots are sorted when the middle storages are ordered and above the first. */
  predicate FiveOrdered(x0: Point, x1: Point, x2: Point, x3: Point, x4: Point) {
    x0.s <= x1.s && x0.s <= x2.s && x0.s <= x3.s && x0.s <= x4.s
    && Min(x1.s, x4.s) <= Min(x2.s, x4.s) <= Min(x3.s, x4.s)
  }

  /** The five-point knots of ordered points are sorted, as numpy.interp needs. */
  lemma FiveKnotsSorted(x0: Point, x1: Point, x2: Point, x3: Point, x4: Point)
    requires FiveOrdered(x0, x1, x2, x3, x4)
    ensures Usable(FiveKnots(x0, x1, x2, x3, x4))
  {
    var k := FiveKnots(x0, x1, x2, x3, x4);
    assert forall i, j :: 0 <= i <= j < 5 ==> k.si[i] <= k.si[j];
  }

  /** `five_points_policy`. */
  function FivePointsPolicy(x0: Point, x1: Point, x2: Point, x3: Point, x4: Point,
                            uMean: real, storage: Option<real>): seq<real>
    requires FiveOrdered(x0, x1, x2, x3, x4)
  {
    FiveKnotsSorted(x0, x1, x2, x3, x4);
    Evaluate(FiveKnots(x0, x1, x2, x3, x4), uMean, storage)
  }

  /** Below the first storage the five-point policy is the smallest release
      of points 0, 1 and 4 times u_mean, and from the last storage on the
      last release times u_mean. */
  lemma FivePointsEnds(x0: Point, x1: Point, x2: Point, x3: Point, x4: Point, uMean: real, x: real)
    requires FiveOrdered(x0, x1, x2, x3, x4)
    ensures var u := FivePointsPolicy(x0, x1, x2, x3, x4, uMean, Some(x));
      && |u| == 1
      && (x < x0.s ==> u[0] == Min3(x0.u, x1.u, x4.u) * uMean)
      && (x4.s <= x ==> u[0] == x4.u * uMean)
  {
    FiveKnotsSorted(x0, x1, x2, x3, x4);
    EvaluateEnds(FiveKnots(x0, x1, x2, x3, x4), uMean, x);
  }

  /** The release of point 3 never affects `five_points_policy`. */
  lemma FiveIgnoresPoint3Release(x0: Point, x1: Point, x2: Point, x3: Point, x4: Point,
                                uMean: real, storage: Option<real>, v: real)
    requires FiveOrdered(x0, x1, x2, x3, x4)
    ensures FivePointsPolicy(x0, x1, x2, x3, x4, uMean, storage)
         == FivePointsPolicy(x0, x1, x2, Point(x3.s, v), x4, uMean, storage)
  {
    FiveKnotsShape(x0, x1, x2, x3, x4, v);
  }
}
