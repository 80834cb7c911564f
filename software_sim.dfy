/**
  `res_sys_sim` of iRONS/Software/res_sys_sim.py: reads the `Qreg` dictionary
  (entries `releases`, `inflows` and `rel_inf`, each empty or a typed input),
  prepares the regulated-flow arrays and the policy tables, and runs the
  ensemble engine (IronsEngine, `ByIndex` lookup).
 */
module SoftwareSim {
  import opened Wrappers
  import opened Tables
  import opened Interpolation
  import opened IronsEngine
  import opened IronsRuns

  /** One entry of `Qreg`: `[]`, or a dictionary whose `type` is 'scheduling',
      'operating policy' or 'variable operating policy' (with its `index`
      array of policy columns), or a type none of the branches recognises.
      A schedule is the caller's own T x M array, which the engine overwrites. */
  datatype Spec =
    | Empty
    | Scheduling(schedule: array2<real>)
    | OperatingPolicy(input: Matrix)
    | VariablePolicy(input: Matrix, index: seq<int>)
    | Unrecognised

  datatype Qreg = Qreg(releases: Spec, inflows: Spec, relInf: Spec)

  /** A schedule is a T x M array (it becomes the engine's in-place array). */
  predicate SpecFits(spec: Spec, steps: nat, members: nat) {
    spec.Scheduling? ==> spec.schedule.Length0 == steps && spec.schedule.Length1 == members
  }

  /** The caller's array behind a 'scheduling' entry. */
  function ScheduleArray(spec: Spec): Option<array2<real>> {
    if spec.Scheduling? then Some(spec.schedule) else None
  }

  /** The arrays of the `releases` and `inflows` schedules; a `rel_inf`
      schedule is never read. */
  function Schedules(q: Qreg): set<object> {
    Owned(ScheduleArray(q.releases), ScheduleArray(q.inflows))
  }

  /** The `rel_inf` entry gives one policy for both flows. */
  predicate SharesPolicy(q: Qreg) {
    q.relInf.OperatingPolicy? || q.relInf.VariablePolicy?
  }

  /** `policy_rel` after the three branches. */
  function ReleasePolicy(q: Qreg): Matrix {
    match q.relInf
    case OperatingPolicy(p) => p
    case VariablePolicy(p, _) => p
    case _ =>
      match q.releases
      case OperatingPolicy(p) => p
      case VariablePolicy(p, _) => p
      case _ => Placeholder
  }

  /** `policy_inf` after the three branches. */
  function InflowPolicy(q: Qreg): Matrix {
    match q.relInf
    case OperatingPolicy(p) => p
    case VariablePolicy(p, _) => p
    case _ =>
      match q.inflows
      case OperatingPolicy(p) => p
      case VariablePolicy(p, _) => p
      case _ => Placeholder
  }

  /** `policy_rel_idx` after the three branches; the NaN placeholder is
      modelled as an index array with no usable entry. Only a variable
      `rel_inf` policy replaces the index a variable `releases` policy set;
      a static `rel_inf` policy leaves it in place. The inflow index
      `policy_inf_idx` is set by the source as well, but never read. */
  function ReleaseIndex(q: Qreg): seq<int> {
    if q.relInf.VariablePolicy? then q.relInf.index
    else if q.releases.VariablePolicy? then q.releases.index
    else []
  }

  /** `Qreg_rel` handed to the engine: the demand when no release is given,
      the schedule when one is, zeros otherwise. */
  function Request(q: Qreg, demand: Series, steps: nat, members: nat): Matrix
    requires Broadcasts(demand, steps, members)
    reads Schedules(q)
  {
    match q.releases
    case Empty => Broadcast(demand, steps, members)
    case Scheduling(a) => Contents(a)
    case _ => Filled(steps, members, 0.0)
  }

  /** `Qreg_inf` handed to the engine: the schedule when one is given, zeros
      otherwise. */
  function RegInflow(q: Qreg, steps: nat, members: nat): Matrix
    reads Schedules(q)
  {
    match q.inflows
    case Scheduling(a) => Contents(a)
    case _ => Filled(steps, members, 0.0)
  }

  /** What the caller of `res_sys_sim` must supply: T x M inflow and
      evaporation, broadcastable requirements and T x M schedules. */
  predicate Callable(steps: nat, members: nat, inflow: Matrix, evap: Matrix,
                     envMin: Series, demand: Series, q: Qreg) {
    && IsShape(inflow, steps, members) && IsShape(evap, steps, members)
    && Broadcasts(envMin, steps, members) && Broadcasts(demand, steps, members)
    && SpecFits(q.releases, steps, members) && SpecFits(q.inflows, steps, members)
  }

  /** Everything `res_sys_sim` passes to `mass_bal_func`. */
  function Configure(steps: nat, members: nat, inflow: Matrix, evap: Matrix,
                     sIni: real, sMin: real, sMax: real,
                     envMin: Series, demand: Series, q: Qreg): (x: Inputs)
    requires Callable(steps, members, inflow, evap, envMin, demand, q)
    reads Schedules(q)
    ensures x.drv.steps == steps && x.drv.members == members
    ensures x.res == Reservoir(sIni, sMin, sMax) && x.reg.ByIndex? && x.reg.sFrac == Grid()
    ensures IsShape(x.drv.qin, steps, members) && IsShape(x.drv.request, steps, members)
    ensures IsShape(x.drv.envMin, steps, members)
  {
    Inputs(Reservoir(sIni, sMin, sMax),
           Drivers(steps, members, inflow, evap, Broadcast(envMin, steps, members),
                   RegInflow(q, steps, members), Request(q, demand, steps, members)),
           ByIndex(Grid(), InflowPolicy(q), ReleasePolicy(q), ReleaseIndex(q)))
  }

  /**
    `res_sys_sim`. Fails when the policy tables do not fit the run: a looked-up
    policy that does not have one row per grid point (numpy.interp raises), a
    multi-column release policy without a usable column index, or a looked-up
    policy with s_max = 0 (storage fraction undefined). A release or inflow
    schedule is overwritten in place and returned; the other arrays are new.
   */
  method ResSysSim(steps: nat, members: nat, inflow: Matrix, evap: Matrix,
                   sIni: real, sMin: real, sMax: real,
                   envMin: Series, demand: Series, q: Qreg)
    returns (r: Result<Run, string>)
    requires Callable(steps, members, inflow, evap, envMin, demand, q)
    requires q.releases.Scheduling? && q.inflows.Scheduling? ==> q.releases.schedule != q.inflows.schedule
    modifies Schedules(q)
    ensures var x := old(Configure(steps, members, inflow, evap, sIni, sMin, sMax, envMin, demand, q));
      && (r.Success? <==> WellFormed(x.res, x.drv, x.reg))
      && (r.Success? ==> WellFormed(x.res, x.drv, x.reg) && Follows(x, r.value))
    ensures r.Success? ==> fresh(r.value.env) && fresh(r.value.spill) && fresh(r.value.s) && fresh(r.value.evap)
    ensures r.Success? ==>
      && (if q.releases.Scheduling? then r.value.qregRel == q.releases.schedule else fresh(r.value.qregRel))
      && (if q.inflows.Scheduling? then r.value.qregInf == q.inflows.schedule else fresh(r.value.qregInf))
    ensures r.Failure? ==> unchanged(Schedules(q))
  {
    var x := Configure(steps, members, inflow, evap, sIni, sMin, sMax, envMin, demand, q);
    if !WellFormed(x.res, x.drv, x.reg) {
      return Failure("policy arrays do not fit the run");
    }
    var run := Simulate(x, ScheduleArray(q.releases), ScheduleArray(q.inflows));
    return Success(run);
  }

  // ---------------------------------------------------------------------
  // Properties of the dispatch
  // ---------------------------------------------------------------------

  /** With no `releases` entry (and no shared policy), every step starts from
      the demand: nothing is looked up and the scheduled release is d[t, m]. */
  lemma ReleasesDefaultToDemand(steps: nat, members: nat, inflow: Matrix, evap: Matrix,
                                sIni: real, sMin: real, sMax: real,
                                envMin: Series, demand: Series, q: Qreg, t: nat, st: real)
    requires Callable(steps, members, inflow, evap, envMin, demand, q)
    requires q.releases == Empty && !SharesPolicy(q) && t < steps
    requires var x := Configure(steps, members, inflow, evap, sIni, sMin, sMax, envMin, demand, q);
      WellFormed(x.res, x.drv, x.reg)
    ensures var x := Configure(steps, members, inflow, evap, sIni, sMin, sMax, envMin, demand, q);
      && ReleaseLookup(x.reg, steps, t, st, sMax) == None
      && x.drv.request == Broadcast(demand, steps, members)
  {
  }

  /** With no `inflows` entry (and no shared policy), the regulated inflow of
      every step is zero. */
  lemma InflowsDefaultToZero(steps: nat, members: nat, inflow: Matrix, evap: Matrix,
                             sIni: real, sMin: real, sMax: real,
                             envMin: Series, demand: Series, q: Qreg, m: nat, t: nat, st: real)
    requires Callable(steps, members, inflow, evap, envMin, demand, q)
    requires q.inflows == Empty && !SharesPolicy(q) && m < members && t < steps
    requires var x := Configure(steps, members, inflow, evap, sIni, sMin, sMax, envMin, demand, q);
      WellFormed(x.res, x.drv, x.reg)
    ensures var x := Configure(steps, members, inflow, evap, sIni, sMin, sMax, envMin, demand, q);
      StepFrom(x, m, t, st).regInflow == 0.0
  {
    var x := Configure(steps, members, inflow, evap, sIni, sMin, sMax, envMin, demand, q);
    assert InflowLookup(x.reg, steps, t, st, sMax) == None;
  }

  /** A `rel_inf` policy drives both flows: at every step and storage the
      looked-up regulated inflow equals the looked-up release. */
  lemma SharedPolicyLookups(steps: nat, members: nat, inflow: Matrix, evap: Matrix,
                            sIni: real, sMin: real, sMax: real,
                            envMin: Series, demand: Series, q: Qreg, t: nat, st: real)
    requires Callable(steps, members, inflow, evap, envMin, demand, q)
    requires SharesPolicy(q) && t < steps
    requires var x := Configure(steps, members, inflow, evap, sIni, sMin, sMax, envMin, demand, q);
      WellFormed(x.res, x.drv, x.reg)
    ensures var x := Configure(steps, members, inflow, evap, sIni, sMin, sMax, envMin, demand, q);
      && x.reg.policyInf == x.reg.policyRel == q.relInf.input
      && InflowLookup(x.reg, steps, t, st, sMax) == ReleaseLookup(x.reg, steps, t, st, sMax)
  {
  }

  /** With variable policies for both flows, the inflow policy is read in the
      column the RELEASE index names; the inflow index is never consulted. */
  lemma InflowReadsReleaseIndex(steps: nat, members: nat, inflow: Matrix, evap: Matrix,
                                sIni: real, sMin: real, sMax: real,
                                envMin: Series, demand: Series,
                                pInf: Matrix, idxInf: seq<int>, pRel: Matrix, idxRel: seq<int>,
                                t: nat, st: real)
    requires Callable(steps, members, inflow, evap, envMin, demand,
                      Qreg(VariablePolicy(pRel, idxRel), VariablePolicy(pInf, idxInf), Empty))
    requires t < steps && 1 < |pInf| && 0 < |pRel| && 1 < |pRel[0]|
    requires var x := Configure(steps, members, inflow, evap, sIni, sMin, sMax, envMin, demand,
                                Qreg(VariablePolicy(pRel, idxRel), VariablePolicy(pInf, idxInf), Empty));
      WellFormed(x.res, x.drv, x.reg)
    ensures 0 <= idxRel[t] && (forall i :: 0 <= i < |pInf| ==> idxRel[t] < |pInf[i]|)
    ensures var x := Configure(steps, members, inflow, evap, sIni, sMin, sMax, envMin, demand,
                               Qreg(VariablePolicy(pRel, idxRel), VariablePolicy(pInf, idxInf), Empty));
      InflowLookup(x.reg, steps, t, st, sMax) == Some(Interp(st / sMax, Grid(), Column(pInf, idxRel[t])))
  {
  }

  /** The inflow index is irrelevant: a variable inflow policy runs exactly as
      the static operating policy with the same table. */
  lemma InflowIndexIgnored(steps: nat, members: nat, inflow: Matrix, evap: Matrix,
                           sIni: real, sMin: real, sMax: real,
                           envMin: Series, demand: Series, releases: Spec, relInf: Spec,
                           pInf: Matrix, idxInf: seq<int>)
    requires Callable(steps, members, inflow, evap, envMin, demand, Qreg(releases, OperatingPolicy(pInf), relInf))
    ensures Configure(steps, members, inflow, evap, sIni, sMin, sMax, envMin, demand,
                      Qreg(releases, VariablePolicy(pInf, idxInf), relInf))
            == Configure(steps, members, inflow, evap, sIni, sMin, sMax, envMin, demand,
                         Qreg(releases, OperatingPolicy(pInf), relInf))
  {
  }

  /** A 'scheduling' (or unrecognised) `rel_inf` entry is ignored. */
  lemma RelInfScheduleIgnored(steps: nat, members: nat, inflow: Matrix, evap: Matrix,
                              sIni: real, sMin: real, sMax: real,
                              envMin: Series, demand: Series, releases: Spec, inflows: Spec, relInf: Spec)
    requires Callable(steps, members, inflow, evap, envMin, demand, Qreg(releases, inflows, Empty))
    requires relInf.Scheduling? || relInf.Unrecognised?
    ensures Configure(steps, members, inflow, evap, sIni, sMin, sMax, envMin, demand,
                      Qreg(releases, inflows, relInf))
            == Configure(steps, members, inflow, evap, sIni, sMin, sMax, envMin, demand,
                         Qreg(releases, inflows, Empty))
  {
  }

  /** A static `rel_inf` policy replaces both tables but not the column index
      a variable `releases` policy set: a multi-column `rel_inf` table that
      has one row per grid point and a column for every index runs, and step
      t reads both flows in column `index[t]` of that table. */
  lemma RelInfPolicyKeepsReleaseIndex(steps: nat, members: nat, inflow: Matrix, evap: Matrix,
                                      sIni: real, sMin: real, sMax: real,
                                      envMin: Series, demand: Series, inflows: Spec,
                                      pRel: Matrix, idx: seq<int>, p: Matrix, t: nat, st: real)
    requires Callable(steps, members, inflow, evap, envMin, demand,
                      Qreg(VariablePolicy(pRel, idx), inflows, OperatingPolicy(p)))
    requires Rectangular(p) && |p| == GridSize && 1 < Width(p) && IndexFits(idx, steps, Width(p))
    requires sMax != 0.0 && t < steps
    ensures var x := Configure(steps, members, inflow, evap, sIni, sMin, sMax, envMin, demand,
                               Qreg(VariablePolicy(pRel, idx), inflows, OperatingPolicy(p)));
      && WellFormed(x.res, x.drv, x.reg)
      && x.reg.relIdx == idx
      && ReleaseLookup(x.reg, steps, t, st, sMax) == Some(Interp(st / sMax, Grid(), Column(p, idx[t])))
      && InflowLookup(x.reg, steps, t, st, sMax) == ReleaseLookup(x.reg, steps, t, st, sMax)
  {
    GridShape();
  }

  /** The test run of iRONS/Software: ten weeks, one member, inflow I, e = 1,
      demand 9, env_min 2, s_ini 20 in [5, 100], and an empty `Qreg`. It is the
      engine's test scenario, whose storage, release and spill series are
      proved in IronsEngine.DrawdownVector and IronsEngine.SpillVector. */
  lemma SoftwareTestRun(inflow: real)
    ensures var x := Configure(10, 1, Filled(10, 1, inflow), Filled(10, 1, 1.0), 20.0, 5.0, 100.0,
                               Scalar(2.0), Full(Filled(10, 1, 9.0)), Qreg(Empty, Empty, Empty));
      WellFormed(x.res, x.drv, x.reg) && TestRun(x, inflow)
  {
    var x := Configure(10, 1, Filled(10, 1, inflow), Filled(10, 1, 1.0), 20.0, 5.0, 100.0,
                       Scalar(2.0), Full(Filled(10, 1, 9.0)), Qreg(Empty, Empty, Empty));
    assert x.drv == TestDrivers(inflow);
  }
}
