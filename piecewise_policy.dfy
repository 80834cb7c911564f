/**
  Piecewise-linear operating policies given by control points (storage
  fraction, release): `op_piecewiselin_1res` of iRONS/Software/operating_policy.py
  and `policy_function` of
  iRONS/Functions/Reservoir_operating_policy/Operating_policy.py. Both repair
  the control points the same way, replacing each coordinate by the minimum
  of itself and every later point's (so both become non-decreasing), force
  the first storage knot to 0 and the last to 1, and evaluate with numpy.interp.
 */
module PiecewisePolicy {
  import opened Wrappers
  import opened Interpolation
  import opened ReservoirStep

  /** One control point: a storage fraction and the release there. */
  datatype Point = Point(s: real, u: real)

  function Storages(ps: seq<Point>): seq<real> {
    seq(|ps|, i requires 0 <= i < |ps| => ps[i].s)
  }

  function Releases(ps: seq<Point>): seq<real> {
    seq(|ps|, i requires 0 <= i < |ps| => ps[i].u)
  }

  /** `np.min` of a non-empty list. */
  function MinOf(xs: seq<real>): real
    requires 0 < |xs|
  {
    if |xs| == 1 then xs[0] else Min(xs[0], MinOf(xs[1..]))
  }

  /** The minimum is at most every entry and is one of them. */
  lemma {:induction false} MinOfBounds(xs: seq<real>)
    requires 0 < |xs|
    ensures forall i :: 0 <= i < |xs| ==> MinOf(xs) <= xs[i]
    ensures exists i :: 0 <= i < |xs| && xs[i] == MinOf(xs)
  {
    if |xs| > 1 {
      MinOfBounds(xs[1..]);
      assert forall i :: 1 <= i < |xs| ==> xs[1..][i - 1] == xs[i];
      var k :| 0 <= k < |xs[1..]| && xs[1..][k] == MinOf(xs[1..]);
      if xs[0] <= MinOf(xs[1..]) {
        assert xs[0] == MinOf(xs);
      } else {
        assert xs[k + 1] == MinOf(xs);
      }
    } else {
      assert xs[0] == MinOf(xs);
    }
  }

  /** Entry i is the minimum of entries i.. of xs. */
  function SuffixMins(xs: seq<real>): seq<real> {
    seq(|xs|, i requires 0 <= i < |xs| => MinOf(xs[i..]))
  }

  /** The suffix minima are a lower bound of every later entry and equal to one of them. */
  lemma SuffixMinsBound(xs: seq<real>, i: nat)
    requires i < |xs|
    ensures forall j :: i <= j < |xs| ==> SuffixMins(xs)[i] <= xs[j]
    ensures exists j :: i <= j < |xs| && SuffixMins(xs)[i] == xs[j]
  {
    var m := MinOf(xs[i..]);
    MinOfBounds(xs[i..]);
    forall j | i <= j < |xs|
      ensures m <= xs[j]
    {
      assert xs[i..][j - i] == xs[j];
    }
    var k :| 0 <= k < |xs[i..]| && xs[i..][k] == m;
    assert xs[i + k] == m;
  }

  /** The suffix minima never decrease, start at the overall minimum and end at the last entry. */
  lemma SuffixMinsShape(xs: seq<real>)
    requires 0 < |xs|
    ensures NonDecreasing(SuffixMins(xs))
    ensures forall j :: 0 <= j < |xs| ==> SuffixMins(xs)[0] <= xs[j]
    ensures SuffixMins(xs)[|xs| - 1] == xs[|xs| - 1]
  {
    var r := SuffixMins(xs);
    forall i, j | 0 <= i <= j < |xs|
      ensures r[i] <= r[j]
    {
      SuffixMinsBound(xs, i);
      SuffixMinsBound(xs, j);
      var k :| j <= k < |xs| && r[j] == xs[k];
    }
    SuffixMinsBound(xs, 0);
    assert xs[|xs| - 1..] == [xs[|xs| - 1]];
  }

  /** Repairing a list that already never decreases leaves it unchanged, so
      the repair is idempotent. */
  lemma SuffixMinsIdempotent(xs: seq<real>)
    ensures NonDecreasing(xs) ==> SuffixMins(xs) == xs
    ensures 0 < |xs| ==> SuffixMins(SuffixMins(xs)) == SuffixMins(xs)
  {
    if NonDecreasing(xs) {
      forall i | 0 <= i < |xs|
        ensures SuffixMins(xs)[i] == xs[i]
      {
        SuffixMinsBound(xs, i);
      }
    }
    if 0 < |xs| {
      SuffixMinsShape(xs);
      var r := SuffixMins(xs);
      forall i | 0 <= i < |r|
        ensures SuffixMins(r)[i] == r[i]
      {
        SuffixMinsBound(r, i);
      }
    }
  }

  /** The storage knots `si`: suffix minima, then `si[0] = 0` and `si[-1] = 1`
      (in that order, so a single point gives [1]). */
  function StorageKnots(ps: seq<Point>): (si: seq<real>)
    requires 0 < |ps|
  {
    SuffixMins(Storages(ps))[0 := 0.0][|ps| - 1 := 1.0]
  }

  /** The release knots `ui`: suffix minima. */
  function ReleaseKnots(ps: seq<Point>): (ui: seq<real>)
    requires 0 < |ps|
  {
    SuffixMins(Releases(ps))
  }

  /** Control points whose repaired storage knots are sorted, as numpy.interp
      needs: every storage after the first is at least 0 and the last at most 1. */
  predicate Admissible(ps: seq<Point>) {
    0 < |ps| && (forall i :: 1 <= i < |ps| ==> 0.0 <= ps[i].s) && ps[|ps| - 1].s <= 1.0
  }

  /** For admissible points the storage knots never decrease and run from
      0 to 1 (a single point gives [1]). */
  lemma StorageKnotsSorted(ps: seq<Point>)
    requires Admissible(ps)
    ensures var si := StorageKnots(ps);
      && |si| == |ps| && NonDecreasing(si)
      && si[|ps| - 1] == 1.0 && (1 < |ps| ==> si[0] == 0.0)
  {
    var xs := Storages(ps);
    var si := StorageKnots(ps);
    var n := |ps|;
    SuffixMinsShape(xs);
    forall i | 0 < i < n - 1
      ensures 0.0 <= si[i] <= 1.0
    {
      SuffixMinsBound(xs, i);
    }
    forall i, j | 0 <= i <= j < n
      ensures si[i] <= si[j]
    {
      if 0 < i && j < n - 1 {
        assert SuffixMins(xs)[i] <= SuffixMins(xs)[j];
      }
    }
  }

  /** The release knots never decrease, start at the smallest release of all
      points and end at the last point's release. */
  lemma ReleaseKnotsShape(ps: seq<Point>)
    requires 0 < |ps|
    ensures var ui := ReleaseKnots(ps);
      && |ui| == |ps| && NonDecreasing(ui)
      && (forall j :: 0 <= j < |ps| ==> ui[0] <= ps[j].u)
      && ui[|ps| - 1] == ps[|ps| - 1].u
  {
    SuffixMinsShape(Releases(ps));
    assert forall j :: 0 <= j < |ps| ==> Releases(ps)[j] == ps[j].u;
  }

  /**
    The repair loop of both policy builders: `si[i] = np.min(x[i:, 0])`,
    `ui[i] = np.min(x[i:, 1])`, then the storage ends are overwritten.
   */
  method Repair(ps: seq<Point>) returns (si: array<real>, ui: array<real>)
    requires 0 < |ps|
    ensures fresh(si) && fresh(ui)
    ensures si[..] == StorageKnots(ps) && ui[..] == ReleaseKnots(ps)
  {
    var n := |ps|;
    si := new real[n];
    ui := new real[n];
    var i := 0;
    while i < n
      invariant 0 <= i <= n
      invariant si[..i] == SuffixMins(Storages(ps))[..i]
      invariant ui[..i] == SuffixMins(Releases(ps))[..i]
    {
      si[i] := MinOf(Storages(ps)[i..]);
      ui[i] := MinOf(Releases(ps)[i..]);
      i := i + 1;
    }
    si[0] := 0.0;
    si[n - 1] := 1.0;
  }

  /** The release the policy gives at storage fraction x: numpy.interp over the repaired knots. */
  function PolicyAt(ps: seq<Point>, x: real): real
    requires Admissible(ps)
  {
    StorageKnotsSorted(ps);
    ReleaseKnotsShape(ps);
    Interp(x, StorageKnots(ps), ReleaseKnots(ps))
  }

  /** The policy on the storage-fraction grid: entry k is the release at k/100. */
  function PolicyGrid(ps: seq<Point>): seq<real>
    requires Admissible(ps)
  {
    seq(GridSize, k requires 0 <= k < GridSize => PolicyAt(ps, k as real / 100.0))
  }

  /**
    The tabulated policy never decreases with storage, stays between the
    smallest release of all points and the last point's release, ends at
    the last point's release and, when the second storage knot is above
    zero (or there is one point), starts at the first release knot.
   */
  lemma PolicyGridShape(ps: seq<Point>)
    requires Admissible(ps)
    ensures var g, ui := PolicyGrid(ps), ReleaseKnots(ps);
      && |g| == GridSize && NonDecreasing(g)
      && Within(g, ui[0], ps[|ps| - 1].u)
      && g[GridSize - 1] == ps[|ps| - 1].u
      && (|ps| == 1 || 0.0 < StorageKnots(ps)[1] ==> g[0] == ui[0])
  {
    StorageKnotsSorted(ps);
    ReleaseKnotsShape(ps);
    var si, ui := StorageKnots(ps), ReleaseKnots(ps);
    var g := PolicyGrid(ps);
    var last := ps[|ps| - 1].u;
    assert Within(ui, ui[0], last);
    forall i, j | 0 <= i <= j < GridSize
      ensures g[i] <= g[j]
    {
      InterpMonotone(i as real / 100.0, j as real / 100.0, si, ui);
    }
    forall k | 0 <= k < GridSize
      ensures ui[0] <= g[k] <= last
    {
      InterpWithin(k as real / 100.0, si, ui, ui[0], last);
    }
    if 1 < |ps| && 0.0 < si[1] {
      assert g[0] == Interp(0.0, si, ui);
    }
  }

  /**
    `op_piecewiselin_1res` of iRONS/Software/operating_policy.py: without a
    storage argument, the 101 x 1 table u[k, 0] = interp(k/100, si, ui). With
    one, the source computes the release into another variable and then
    returns the unassigned `u`, which raises; that call fails here.
   */
  method OpPiecewiseLin(ps: seq<Point>, storage: Option<real>) returns (r: Result<array2<real>, string>)
    requires Admissible(ps)
    ensures r.Failure? <==> storage.Some?
    ensures r.Success? ==> fresh(r.value) && r.value.Length0 == GridSize && r.value.Length1 == 1
    ensures r.Success? ==> forall k :: 0 <= k < GridSize ==> r.value[k, 0] == PolicyGrid(ps)[k]
  {
    StorageKnotsSorted(ps);
    ReleaseKnotsShape(ps);
    var si, ui := Repair(ps);
    var sk, uk := si[..], ui[..];
    if storage.Some? {
      var ignored := Interp(storage.value, sk, uk);
      return Failure("local variable 'u' referenced before assignment");
    }
    var u := new real[GridSize, 1];
    var k := 0;
    while k < GridSize
      invariant 0 <= k <= GridSize
      invariant forall j :: 0 <= j < k ==> u[j, 0] == PolicyGrid(ps)[j]
    {
      u[k, 0] := Interp(k as real / 100.0, sk, uk);
      k := k + 1;
    }
    return Success(u);
  }

  /**
    `policy_function` of iRONS/Functions/Reservoir_operating_policy/Operating_policy.py:
    the same repair, then one numpy.interp call, at the given storage fraction
    (a one-entry result) or on the whole grid. Below the first knot the result
    is the first release knot and at or above 1 the last point's release.
   */
  method PolicyFunction(ps: seq<Point>, storage: Option<real>) returns (u: seq<real>)
    requires Admissible(ps)
    ensures storage.None? ==> u == PolicyGrid(ps)
    ensures storage.Some? ==> u == [PolicyAt(ps, storage.value)]
    ensures storage.Some? && storage.value < 0.0 ==> u == [ReleaseKnots(ps)[0]]
    ensures storage.Some? && 1.0 <= storage.value ==> u == [ps[|ps| - 1].u]
  {
    StorageKnotsSorted(ps);
    ReleaseKnotsShape(ps);
    var si, ui := Repair(ps);
    var sk, uk := si[..], ui[..];
    if storage.Some? {
      u := [Interp(storage.value, sk, uk)];
    } else {
      u := seq(GridSize, k requires 0 <= k < GridSize => Interp(k as real / 100.0, sk, uk));
    }
  }
}
