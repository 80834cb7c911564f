/**
  `Res_sys_sim` of iRONS/Functions/Reservoir_system_simulation/Res_sys_sim.py:
  reads the `releases` and `inflows` entries of `Qreg`, tabulates an operating
  policy on the storage-fraction grid or a rule curve on the grid for every
  time step, and runs the ensemble engine (IronsEngine, `ByStep` lookup).

  The caller's policy functions are parameters: an operating policy is the
  function `s => func(param, s)`; a rule curve is the band function
  `input[0]` together with the two day tables `(s_yday, r_yday)` that
  `input[1](param)` returns. Dates are given as their day of the year.
 */
module FunctionsSim {
  import opened Wrappers
  import opened Tables
  import opened Interpolation
  import opened IronsEngine
  import opened IronsRuns

  /** One entry of `Qreg`: `[]`, or a dictionary whose `type` is 'scheduling',
      'operating policy' or 'rule curve', or a type no branch recognises.
      A schedule is the caller's own T x M array, which the engine overwrites. */
  datatype Entry =
    | Empty
    | Scheduling(schedule: array2<real>)
    | OperatingPolicy(policy: real -> real)
    | RuleCurve(band: (Matrix, real) -> real, sYday: Matrix, rYday: Matrix)
    | Unrecognised

  /** A rule curve's two day tables are 2-D with the same rows. */
  predicate DayTablesFit(e: Entry) {
    e.RuleCurve? ==> Rectangular(e.sYday) && Rectangular(e.rYday) && |e.sYday| == |e.rYday|
  }

  /** A schedule is T x M. */
  predicate EntryFits(e: Entry, steps: nat, members: nat) {
    (e.Scheduling? ==> e.schedule.Length0 == steps && e.schedule.Length1 == members) && DayTablesFit(e)
  }

  /** The caller's array behind a 'scheduling' entry. */
  function ScheduleArray(e: Entry): Option<array2<real>> {
    if e.Scheduling? then Some(e.schedule) else None
  }

  /** The arrays of the `releases` and `inflows` schedules. */
  function Schedules(releases: Entry, inflows: Entry): set<object> {
    Owned(ScheduleArray(releases), ScheduleArray(inflows))
  }

  /** `policy[i] = func(param, s_frac[i])` for the 101 grid points. */
  function PolicyTable(f: real -> real): (v: seq<real>)
    ensures |v| == GridSize
    ensures forall i :: 0 <= i < GridSize ==> v[i] == f(i as real / 100.0)
  {
    seq(GridSize, i => f(i as real / 100.0))
  }

  /** `param` of day column `d`: row k is `[s_yday[k, d], r_yday[k, d]]`. */
  function DayParam(sYday: Matrix, rYday: Matrix, d: nat): (p: Matrix)
    requires Rectangular(sYday) && Rectangular(rYday) && |sYday| == |rYday|
    requires d < Width(sYday) && d < Width(rYday)
    ensures IsShape(p, |sYday|, 2)
    ensures Column(p, 0) == Column(sYday, d) && Column(p, 1) == Column(rYday, d)
  {
    seq(|sYday|, k requires 0 <= k < |sYday| => [sYday[k][d], rYday[k][d]])
  }

  /** The day-of-year of every step is a usable column of both day tables. */
  predicate DaysFit(sYday: Matrix, rYday: Matrix, ydays: seq<int>, steps: nat)
    requires Rectangular(sYday) && Rectangular(rYday)
    requires steps <= |ydays|
  {
    forall j :: 0 <= j < steps ==> 0 <= ydays[j] < Width(sYday) && ydays[j] < Width(rYday)
  }

  /** Column j of a rule-curve table: the band function with the parameters of
      day `date[j].dayofyear`, on the grid. */
  function RuleColumn(band: (Matrix, real) -> real, sYday: Matrix, rYday: Matrix, d: nat): (c: seq<real>)
    requires Rectangular(sYday) && Rectangular(rYday) && |sYday| == |rYday|
    requires d < Width(sYday) && d < Width(rYday)
    ensures |c| == GridSize
    ensures forall i :: 0 <= i < GridSize ==> c[i] == band(DayParam(sYday, rYday, d), Grid()[i])
  {
    PolicyTable(s => band(DayParam(sYday, rYday, d), s))
  }

  /** The 101 x T rule-curve table, or the IndexError of a day outside the
      day tables. */
  function RuleCurveTable(band: (Matrix, real) -> real, sYday: Matrix, rYday: Matrix,
                          ydays: seq<int>, steps: nat): (r: Result<Matrix, string>)
    requires Rectangular(sYday) && Rectangular(rYday) && |sYday| == |rYday|
    requires steps <= |ydays|
    ensures r.Success? <==> DaysFit(sYday, rYday, ydays, steps)
    ensures r.Success? ==> IsShape(r.value, GridSize, steps)
  {
    if DaysFit(sYday, rYday, ydays, steps) then
      Success(seq(GridSize, i requires 0 <= i < GridSize =>
                seq(steps, j requires 0 <= j < steps => RuleColumn(band, sYday, rYday, ydays[j] as nat)[i])))
    else Failure("day of year outside the rule-curve tables")
  }

  /** Fills the 101 grid values of an operating policy one by one. */
  method TabulatePolicy(f: real -> real) returns (v: seq<real>)
    ensures v == PolicyTable(f)
    ensures forall i :: 0 <= i < GridSize ==> v[i] == f(i as real / 100.0)
  {
    var a := new real[GridSize];
    var i := 0;
    while i < GridSize
      invariant 0 <= i <= GridSize
      invariant forall k :: 0 <= k < i ==> a[k] == f(Grid()[k])
    {
      a[i] := f(Grid()[i]);
      i := i + 1;
    }
    v := a[..];
  }

  /** Fills the rule-curve table column by column: for each step j the
      parameters of day `ydays[j]`, then the band function on every grid point. */
  method TabulateRuleCurve(band: (Matrix, real) -> real, sYday: Matrix, rYday: Matrix,
                           ydays: seq<int>, steps: nat)
    returns (r: Result<Matrix, string>)
    requires Rectangular(sYday) && Rectangular(rYday) && |sYday| == |rYday|
    requires steps <= |ydays|
    ensures r == RuleCurveTable(band, sYday, rYday, ydays, steps)
    ensures r.Success? ==> IsShape(r.value, GridSize, steps)
    ensures r.Success? ==> forall i, j :: 0 <= i < GridSize && 0 <= j < steps ==>
              r.value[i][j] == band(DayParam(sYday, rYday, ydays[j] as nat), i as real / 100.0)
  {
    var a := new real[GridSize, steps];
    var j := 0;
    while j < steps
      invariant 0 <= j <= steps
      invariant forall u :: 0 <= u < j ==> 0 <= ydays[u] < Width(sYday) && ydays[u] < Width(rYday)
      invariant forall i, u :: 0 <= i < GridSize && 0 <= u < j ==>
                  a[i, u] == RuleColumn(band, sYday, rYday, ydays[u] as nat)[i]
    {
      var yday := ydays[j];
      if yday < 0 || Width(sYday) <= yday || Width(rYday) <= yday {
        return Failure("day of year outside the rule-curve tables");
      }
      var param := DayParam(sYday, rYday, yday);
      var i := 0;
      while i < GridSize
        invariant 0 <= i <= GridSize
        invariant forall k, u :: 0 <= k < GridSize && 0 <= u < j ==>
                    a[k, u] == RuleColumn(band, sYday, rYday, ydays[u] as nat)[k]
        invariant forall k :: 0 <= k < i ==> a[k, j] == RuleColumn(band, sYday, rYday, yday as nat)[k]
      {
        a[i, j] := band(param, Grid()[i]);
        i := i + 1;
      }
      j := j + 1;
    }
    var table := seq(GridSize, i requires 0 <= i < GridSize reads a =>
                   seq(steps, u requires 0 <= u < steps reads a => a[i, u]));
    ghost var expected := seq(GridSize, i requires 0 <= i < GridSize =>
                            seq(steps, u requires 0 <= u < steps => RuleColumn(band, sYday, rYday, ydays[u] as nat)[i]));
    forall i | 0 <= i < GridSize
      ensures table[i] == expected[i]
    {
      assert |table[i]| == |expected[i]| == steps;
    }
    assert DaysFit(sYday, rYday, ydays, steps);
    assert table == expected;
    r := Success(table);
  }

  /** `policy_rel` (a 1-D table, a 101 x T table or the 1 x 1 placeholder). */
  function ReleasePolicy(releases: Entry, ydays: seq<int>, steps: nat): Result<Policy, string>
    requires DayTablesFit(releases) && steps <= |ydays|
  {
    match releases
    case OperatingPolicy(f) => Success(Vector(PolicyTable(f)))
    case RuleCurve(band, sYday, rYday) =>
      var table := RuleCurveTable(band, sYday, rYday, ydays, steps);
      if table.Success? then Success(Table(table.value)) else Failure(table.error)
    case _ => Success(Table(Placeholder))
  }

  /** `policy_inf`. The 'rule curve' branch takes its functions and tables from
      the `releases` entry, so it fails (the source raises) when that entry is
      not itself a rule curve. */
  function InflowPolicy(releases: Entry, inflows: Entry, ydays: seq<int>, steps: nat): Result<Policy, string>
    requires DayTablesFit(releases) && steps <= |ydays|
  {
    match inflows
    case OperatingPolicy(f) => Success(Vector(PolicyTable(f)))
    case RuleCurve(_, _, _) =>
      if releases.RuleCurve? then ReleasePolicy(releases, ydays, steps)
      else Failure("the releases entry holds no rule-curve functions")
    case _ => Success(Table(Placeholder))
  }

  /** What the caller of `Res_sys_sim` must supply. */
  predicate Callable(ydays: seq<int>, steps: nat, members: nat, inflow: Matrix, evap: Matrix,
                     envMin: Series, demand: Series, releases: Entry, inflows: Entry) {
    && steps <= |ydays|
    && IsShape(inflow, steps, members) && IsShape(evap, steps, members)
    && Broadcasts(envMin, steps, members) && Broadcasts(demand, steps, members)
    && EntryFits(releases, steps, members) && EntryFits(inflows, steps, members)
  }

  /** `Qreg_rel` handed to the engine: the demand when no release is given,
      the schedule when one is, zeros otherwise. */
  function Request(releases: Entry, demand: Series, steps: nat, members: nat): Matrix
    requires Broadcasts(demand, steps, members)
    reads Owned(ScheduleArray(releases), None)
  {
    match releases
    case Empty => Broadcast(demand, steps, members)
    case Scheduling(a) => Contents(a)
    case _ => Filled(steps, members, 0.0)
  }

  /** `Qreg_inf` handed to the engine: the schedule when one is given, zeros
      otherwise. */
  function RegInflow(inflows: Entry, steps: nat, members: nat): Matrix
    reads Owned(None, ScheduleArray(inflows))
  {
    if inflows.Scheduling? then Contents(inflows.schedule) else Filled(steps, members, 0.0)
  }

  /** The T x M series `Res_sys_sim` hands to the engine. */
  function DriversOf(ydays: seq<int>, steps: nat, members: nat, inflow: Matrix, evap: Matrix,
                     envMin: Series, demand: Series, releases: Entry, inflows: Entry): (d: Drivers)
    requires Callable(ydays, steps, members, inflow, evap, envMin, demand, releases, inflows)
    reads Schedules(releases, inflows)
    ensures d.steps == steps && d.members == members && d.inflow == inflow && d.evap == evap
    ensures IsShape(d.envMin, steps, members) && IsShape(d.qin, steps, members) && IsShape(d.request, steps, members)
  {
    Drivers(steps, members, inflow, evap, Broadcast(envMin, steps, members),
            RegInflow(inflows, steps, members), Request(releases, demand, steps, members))
  }

  /** Everything `Res_sys_sim` passes to `Mass_bal_func`, or the error it
      raises while tabulating a rule curve. */
  function Configure(ydays: seq<int>, steps: nat, members: nat, inflow: Matrix, evap: Matrix,
                     sIni: real, sMin: real, sMax: real, envMin: Series, demand: Series,
                     releases: Entry, inflows: Entry): (r: Result<Inputs, string>)
    requires Callable(ydays, steps, members, inflow, evap, envMin, demand, releases, inflows)
    reads Schedules(releases, inflows)
    ensures r.Success? ==> r.value.res == Reservoir(sIni, sMin, sMax) && r.value.reg.ByStep?
    ensures r.Success? ==> r.value.drv.steps == steps && r.value.drv.members == members
  {
    var pRel := ReleasePolicy(releases, ydays, steps);
    var pInf := InflowPolicy(releases, inflows, ydays, steps);
    if pRel.Failure? then Failure(pRel.error)
    else if pInf.Failure? then Failure(pInf.error)
    else Success(Inputs(Reservoir(sIni, sMin, sMax),
                        DriversOf(ydays, steps, members, inflow, evap, envMin, demand, releases, inflows),
                        ByStep(Grid(), pInf.value, pRel.value)))
  }

  /** Builds `policy_rel` the way the source does, element by element. */
  method BuildReleasePolicy(releases: Entry, ydays: seq<int>, steps: nat)
    returns (r: Result<Policy, string>)
    requires DayTablesFit(releases) && steps <= |ydays|
    ensures r == ReleasePolicy(releases, ydays, steps)
  {
    match releases {
      case OperatingPolicy(f) =>
        var v := TabulatePolicy(f);
        r := Success(Vector(v));
      case RuleCurve(band, sYday, rYday) =>
        var table := TabulateRuleCurve(band, sYday, rYday, ydays, steps);
        if table.Failure? {
          r := Failure(table.error);
        } else {
          r := Success(Table(table.value));
        }
      case _ =>
        r := Success(Table(Placeholder));
    }
  }

  /** Builds `policy_inf` the way the source does, element by element. */
  method BuildInflowPolicy(releases: Entry, inflows: Entry, ydays: seq<int>, steps: nat)
    returns (r: Result<Policy, string>)
    requires DayTablesFit(releases) && steps <= |ydays|
    ensures r == InflowPolicy(releases, inflows, ydays, steps)
  {
    match inflows {
      case OperatingPolicy(f) =>
        var v := TabulatePolicy(f);
        r := Success(Vector(v));
      case RuleCurve(_, _, _) =>
        if !releases.RuleCurve? {
          return Failure("the releases entry holds no rule-curve functions");
        }
        r := BuildReleasePolicy(releases, ydays, steps);
      case _ =>
        r := Success(Table(Placeholder));
    }
  }

  /** The statements of `Res_sys_sim` before the engine call: broadcast the
      forcings, take the schedules, and build both policy tables element by
      element. They yield exactly the configured inputs, or its error. */
  method BuildInputs(ydays: seq<int>, steps: nat, members: nat, inflow: Matrix, evap: Matrix,
                     sIni: real, sMin: real, sMax: real, envMin: Series, demand: Series,
                     releases: Entry, inflows: Entry)
    returns (r: Result<Inputs, string>)
    requires Callable(ydays, steps, members, inflow, evap, envMin, demand, releases, inflows)
    ensures r == old(Configure(ydays, steps, members, inflow, evap, sIni, sMin, sMax, envMin, demand, releases, inflows))
  {
    ghost var c := Configure(ydays, steps, members, inflow, evap, sIni, sMin, sMax, envMin, demand, releases, inflows);
    var drv := DriversOf(ydays, steps, members, inflow, evap, envMin, demand, releases, inflows);
    var pRel := BuildReleasePolicy(releases, ydays, steps);
    if pRel.Failure? {
      return Failure(pRel.error);
    }
    var pInf := BuildInflowPolicy(releases, inflows, ydays, steps);
    if pInf.Failure? {
      return Failure(pInf.error);
    }
    r := Success(Inputs(Reservoir(sIni, sMin, sMax), drv, ByStep(Grid(), pInf.value, pRel.value)));
    assert c == r;
  }

  /**
    `Res_sys_sim`. Fails with the IndexError of a day outside the rule-curve
    tables, when the inflow rule curve finds no rule curve under `releases`,
    or when a policy is looked up with s_max = 0. A release or inflow
    schedule is overwritten in place and returned; the other arrays are new.
   */
  method ResSysSim(ydays: seq<int>, steps: nat, members: nat, inflow: Matrix, evap: Matrix,
                   sIni: real, sMin: real, sMax: real, envMin: Series, demand: Series,
                   releases: Entry, inflows: Entry)
    returns (r: Result<Run, string>)
    requires Callable(ydays, steps, members, inflow, evap, envMin, demand, releases, inflows)
    requires releases.Scheduling? && inflows.Scheduling? ==> releases.schedule != inflows.schedule
    modifies Schedules(releases, inflows)
    ensures var c := old(Configure(ydays, steps, members, inflow, evap, sIni, sMin, sMax, envMin, demand, releases, inflows));
      && (r.Success? <==> c.Success? && WellFormed(c.value.res, c.value.drv, c.value.reg))
      && (r.Success? ==> WellFormed(c.value.res, c.value.drv, c.value.reg) && Follows(c.value, r.value))
    ensures r.Success? ==> fresh(r.value.env) && fresh(r.value.spill) && fresh(r.value.s) && fresh(r.value.evap)
    ensures r.Success? ==>
      && (if releases.Scheduling? then r.value.qregRel == releases.schedule else fresh(r.value.qregRel))
      && (if inflows.Scheduling? then r.value.qregInf == inflows.schedule else fresh(r.value.qregInf))
    ensures r.Failure? ==> unchanged(Schedules(releases, inflows))
  {
    var c := BuildInputs(ydays, steps, members, inflow, evap, sIni, sMin, sMax, envMin, demand, releases, inflows);
    if c.Failure? {
      return Failure(c.error);
    }
    var x := c.value;
    if !WellFormed(x.res, x.drv, x.reg) {
      return Failure("storage fraction undefined with s_max = 0");
    }
    var run := Simulate(x, ScheduleArray(releases), ScheduleArray(inflows));
    return Success(run);
  }

  // ---------------------------------------------------------------------
  // Properties of the front end
  // ---------------------------------------------------------------------

  /** The tables the front end builds always fit the engine; the only run it
      cannot start is one that looks a policy up with s_max = 0. */
  lemma TablesFitEngine(ydays: seq<int>, steps: nat, members: nat, inflow: Matrix, evap: Matrix,
                        sIni: real, sMin: real, sMax: real, envMin: Series, demand: Series,
                        releases: Entry, inflows: Entry)
    requires Callable(ydays, steps, members, inflow, evap, envMin, demand, releases, inflows)
    requires Configure(ydays, steps, members, inflow, evap, sIni, sMin, sMax, envMin, demand, releases, inflows).Success?
    ensures var x := Configure(ydays, steps, members, inflow, evap, sIni, sMin, sMax, envMin, demand, releases, inflows).value;
      WellFormed(x.res, x.drv, x.reg) <==> (LooksUp(x.reg) ==> sMax != 0.0)
  {
    var pRel := ReleasePolicy(releases, ydays, steps);
    var pInf := InflowPolicy(releases, inflows, ydays, steps);
    var drv := DriversOf(ydays, steps, members, inflow, evap, envMin, demand, releases, inflows);
    var reg := ByStep(Grid(), pInf.value, pRel.value);
    assert Configure(ydays, steps, members, inflow, evap, sIni, sMin, sMax, envMin, demand, releases, inflows).value
           == Inputs(Reservoir(sIni, sMin, sMax), drv, reg);
    GridShape();
    PoliciesFit(releases, inflows, ydays, steps);
    assert WellFormed(Reservoir(sIni, sMin, sMax), drv, reg) <==> RegulationFits(reg, steps, sMax);
  }

  /** The policies the front end builds fit the grid and the run. */
  lemma PoliciesFit(releases: Entry, inflows: Entry, ydays: seq<int>, steps: nat)
    requires DayTablesFit(releases) && steps <= |ydays|
    ensures var p := ReleasePolicy(releases, ydays, steps);
      p.Success? ==> ByStepPolicyFits(p.value, Grid(), steps)
    ensures var p := InflowPolicy(releases, inflows, ydays, steps);
      p.Success? ==> ByStepPolicyFits(p.value, Grid(), steps)
  {
  }

  /** The 'rule curve' inflow branch reads the `releases` entry: it fails
      unless that entry is a rule curve, and then regulated inflows follow the
      very table the releases follow, whatever the inflow entry holds. */
  lemma InflowRuleCurveReadsReleases(ydays: seq<int>, steps: nat, members: nat, inflow: Matrix, evap: Matrix,
                                     sIni: real, sMin: real, sMax: real, envMin: Series, demand: Series,
                                     releases: Entry, inflows: Entry)
    requires Callable(ydays, steps, members, inflow, evap, envMin, demand, releases, inflows)
    requires inflows.RuleCurve?
    ensures var c := Configure(ydays, steps, members, inflow, evap, sIni, sMin, sMax, envMin, demand, releases, inflows);
      && (!releases.RuleCurve? ==> c.Failure?)
      && (c.Success? ==> c.value.reg.inflowPolicy == c.value.reg.releasePolicy)
  {
  }

  /** Step t of a rule-curve run looks its release up in the grid tabulation of
      the band function with the parameters of day `ydays[t]`. */
  lemma RuleCurveStepLookup(ydays: seq<int>, steps: nat, members: nat, inflow: Matrix, evap: Matrix,
                            sIni: real, sMin: real, sMax: real, envMin: Series, demand: Series,
                            releases: Entry, inflows: Entry, t: nat, st: real)
    requires Callable(ydays, steps, members, inflow, evap, envMin, demand, releases, inflows)
    requires releases.RuleCurve? && t < steps
    requires var c := Configure(ydays, steps, members, inflow, evap, sIni, sMin, sMax, envMin, demand, releases, inflows);
      c.Success? && WellFormed(c.value.res, c.value.drv, c.value.reg)
    ensures 0 <= ydays[t] < Width(releases.sYday) && ydays[t] < Width(releases.rYday)
    ensures var x := Configure(ydays, steps, members, inflow, evap, sIni, sMin, sMax, envMin, demand, releases, inflows).value;
      ReleaseLookup(x.reg, steps, t, st, sMax)
      == Some(Interp(st / sMax, Grid(), RuleColumn(releases.band, releases.sYday, releases.rYday, ydays[t] as nat)))
  {
    var table := RuleCurveTable(releases.band, releases.sYday, releases.rYday, ydays, steps).value;
    var col := RuleColumn(releases.band, releases.sYday, releases.rYday, ydays[t] as nat);
    assert Column(table, t) == col;
  }

  /** At a storage fraction on the grid, an operating policy's looked-up
      release is exactly the caller's policy function there. */
  lemma PolicyLookupAtGrid(ydays: seq<int>, steps: nat, members: nat, inflow: Matrix, evap: Matrix,
                           sIni: real, sMin: real, sMax: real, envMin: Series, demand: Series,
                           releases: Entry, inflows: Entry, t: nat, st: real, k: nat)
    requires Callable(ydays, steps, members, inflow, evap, envMin, demand, releases, inflows)
    requires releases.OperatingPolicy? && t < steps && k < GridSize
    requires var c := Configure(ydays, steps, members, inflow, evap, sIni, sMin, sMax, envMin, demand, releases, inflows);
      c.Success? && WellFormed(c.value.res, c.value.drv, c.value.reg)
    requires st / sMax == k as real / 100.0
    ensures var x := Configure(ydays, steps, members, inflow, evap, sIni, sMin, sMax, envMin, demand, releases, inflows).value;
      ReleaseLookup(x.reg, steps, t, st, sMax) == Some(releases.policy(k as real / 100.0))
  {
    var x := Configure(ydays, steps, members, inflow, evap, sIni, sMin, sMax, envMin, demand, releases, inflows).value;
    var table := PolicyTable(releases.policy);
    assert x.reg.releasePolicy == Vector(table);
    assert ReleaseLookup(x.reg, steps, t, st, sMax) == Some(Interp(k as real / 100.0, Grid(), table));
    GridKnot(k, table);
  }

  /** The test run of iRONS/Functions: the same ten weeks as the Software test
      with an empty `Qreg` give the engine's test scenario (storage, release
      and spill series in IronsEngine.DrawdownVector and IronsEngine.SpillVector). */
  lemma FunctionsTestRun(ydays: seq<int>, inflow: real)
    requires 10 <= |ydays|
    ensures var c := Configure(ydays, 10, 1, Filled(10, 1, inflow), Filled(10, 1, 1.0), 20.0, 5.0, 100.0,
                               Scalar(2.0), Full(Filled(10, 1, 9.0)), Empty, Empty);
      c.Success? && WellFormed(c.value.res, c.value.drv, c.value.reg) && TestRun(c.value, inflow)
  {
    var c := Configure(ydays, 10, 1, Filled(10, 1, inflow), Filled(10, 1, 1.0), 20.0, 5.0, 100.0,
                       Scalar(2.0), Full(Filled(10, 1, 9.0)), Empty, Empty);
    assert c.value.drv == TestDrivers(inflow);
  }
}
