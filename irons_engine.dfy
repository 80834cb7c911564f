/**
  The ensemble mass-balance engine shared by the two iRONS copies,
  `mass_bal_func` in iRONS/Software/res_sys_sim.py and `Mass_bal_func` in
  iRONS/Functions/Reservoir_system_simulation/Res_sys_sim.py. Both walk the
  ensemble members and, inside each member, the time steps, and run the same
  step (ReservoirStep.Step). They differ only in how a tabulated operating
  policy is looked up at the current storage fraction, which `Regulation`
  captures: the Software copy picks the policy column through an index array,
  the Functions copy uses column t at step t.
 */
module IronsEngine {
  import opened Wrappers
  import opened Tables
  import opened Interpolation
  import opened ReservoirStep

  /** A policy array of the Functions copy: 1-D for a static policy, 2-D
      (one column per time step) for a rule curve. */
  datatype Policy = Vector(values: seq<real>) | Table(rows: Matrix)

  /** `len(policy)`: entries of a 1-D array, rows of a 2-D one. */
  function Len(p: Policy): nat {
    match p
    case Vector(v) => |v|
    case Table(rows) => |rows|
  }

  /**
    How regulated inflows and releases are looked up during a run.
    ByIndex: the Software copy. Both policies are 2-D; a policy with more than
    one row is looked up; when `policyRel` has more than one column, column
    `relIdx[t]` is used for BOTH lookups, otherwise column 0.
    ByStep: the Functions copy. A policy with more than one entry/row is
    looked up; a 2-D policy in column t at step t.
    A policy with a single row is the engines' "no policy" placeholder (the
    source fills it with NaN); it is never read.
   */
  datatype Regulation =
    | ByIndex(sFrac: seq<real>, policyInf: Matrix, policyRel: Matrix, relIdx: seq<int>)
    | ByStep(sFrac: seq<real>, inflowPolicy: Policy, releasePolicy: Policy)

  /** The column index `int(policy_rel_idx[t])` is a valid column of a
      `width`-column policy for every step. */
  predicate IndexFits(relIdx: seq<int>, steps: nat, width: nat) {
    steps <= |relIdx| && forall t :: 0 <= t < steps ==> 0 <= relIdx[t] < width
  }

  predicate ByIndexPolicyFits(p: Matrix, sFrac: seq<real>, relIdx: seq<int>, relWidth: nat, steps: nat) {
    Rectangular(p) && 0 < Width(p)
    && (1 < |p| ==> |p| == |sFrac| && (1 < relWidth ==> IndexFits(relIdx, steps, Width(p))))
  }

  predicate ByStepPolicyFits(p: Policy, sFrac: seq<real>, steps: nat) {
    match p
    case Vector(v) => 1 < |v| ==> |v| == |sFrac|
    case Table(rows) => Rectangular(rows) && (1 < |rows| ==> |rows| == |sFrac| && steps <= Width(rows))
  }

  /** True when some policy will be looked up (so storage is divided by s_max). */
  predicate LooksUp(reg: Regulation) {
    match reg
    case ByIndex(_, pInf, pRel, _) => 1 < |pInf| || 1 < |pRel|
    case ByStep(_, pInf, pRel) => 1 < Len(pInf) || 1 < Len(pRel)
  }

  /** What the engine demands of the policy arrays for a run of `steps` steps. */
  predicate RegulationFits(reg: Regulation, steps: nat, sMax: real) {
    0 < |reg.sFrac| && NonDecreasing(reg.sFrac)
    && (LooksUp(reg) ==> sMax != 0.0)
    && match reg
       case ByIndex(sFrac, pInf, pRel, relIdx) =>
         Rectangular(pRel)
         && ByIndexPolicyFits(pInf, sFrac, relIdx, Width(pRel), steps)
         && ByIndexPolicyFits(pRel, sFrac, relIdx, Width(pRel), steps)
       case ByStep(sFrac, pInf, pRel) =>
         ByStepPolicyFits(pInf, sFrac, steps) && ByStepPolicyFits(pRel, sFrac, steps)
  }

  /** Regulated inflow looked up at storage s in step t; None keeps the scheduled value. */
  function InflowLookup(reg: Regulation, steps: nat, t: nat, s: real, sMax: real): Option<real>
    requires RegulationFits(reg, steps, sMax) && t < steps
  {
    match reg
    case ByIndex(sFrac, pInf, pRel, relIdx) =>
      if 1 < |pInf| then
        Some(Interp(s / sMax, sFrac, Column(pInf, if 1 < Width(pRel) then relIdx[t] else 0)))
      else None
    case ByStep(sFrac, pInf, _) =>
      if 1 < Len(pInf) then Some(PolicyAt(pInf, sFrac, steps, t, s / sMax)) else None
  }

  /** Regulated release looked up at storage s in step t; None keeps the scheduled value. */
  function ReleaseLookup(reg: Regulation, steps: nat, t: nat, s: real, sMax: real): Option<real>
    requires RegulationFits(reg, steps, sMax) && t < steps
  {
    match reg
    case ByIndex(sFrac, _, pRel, relIdx) =>
      if 1 < |pRel| then
        Some(Interp(s / sMax, sFrac, Column(pRel, if 1 < Width(pRel) then relIdx[t] else 0)))
      else None
    case ByStep(sFrac, _, pRel) =>
      if 1 < Len(pRel) then Some(PolicyAt(pRel, sFrac, steps, t, s / sMax)) else None
  }

  /** Functions copy: a 2-D policy is read in column t, a 1-D policy directly. */
  function PolicyAt(p: Policy, sFrac: seq<real>, steps: nat, t: nat, x: real): real
    requires 0 < |sFrac| && NonDecreasing(sFrac)
    requires ByStepPolicyFits(p, sFrac, steps) && 1 < Len(p) && t < steps
  {
    match p
    case Vector(v) => Interp(x, sFrac, v)
    case Table(rows) => Interp(x, sFrac, Column(rows, t))
  }

  /** Storage bounds and initial storage of one run. */
  datatype Reservoir = Reservoir(sIni: real, sMin: real, sMax: real)

  /**
    The T x M inputs of one run: natural inflow, evaporation depth, environmental
    requirement, and the regulated inflow and release each step starts from
    (the arrays the engine then overwrites in place).
   */
  datatype Drivers = Drivers(steps: nat, members: nat,
                             inflow: Matrix, evap: Matrix, envMin: Matrix,
                             qin: Matrix, request: Matrix)

  predicate WellFormed(res: Reservoir, drv: Drivers, reg: Regulation) {
    && IsShape(drv.inflow, drv.steps, drv.members)
    && IsShape(drv.evap, drv.steps, drv.members)
    && IsShape(drv.envMin, drv.steps, drv.members)
    && IsShape(drv.qin, drv.steps, drv.members)
    && IsShape(drv.request, drv.steps, drv.members)
    && RegulationFits(reg, drv.steps, res.sMax)
  }

  /** Everything one run is given. */
  datatype Inputs = Inputs(res: Reservoir, drv: Drivers, reg: Regulation)

  /** The inputs of a run whose arrays and policies fit together. */
  type Scenario = x: Inputs | WellFormed(x.res, x.drv, x.reg)
    witness Inputs(Reservoir(0.0, 0.0, 0.0), Drivers(0, 0, [], [], [], [], []),
                   ByIndex([0.0], [[0.0]], [[0.0]], []))

  /** The step of member m at time t, starting from storage s. */
  function StepFrom(x: Scenario, m: nat, t: nat, s: real): Flows
    requires m < x.drv.members && t < x.drv.steps
  {
    var qin := InflowLookup(x.reg, x.drv.steps, t, s, x.res.sMax).GetOr(x.drv.qin[t][m]);
    var request := ReleaseLookup(x.reg, x.drv.steps, t, s, x.res.sMax).GetOr(x.drv.request[t][m]);
    Step(s, x.drv.inflow[t][m], qin, request, x.drv.evap[t][m], x.drv.envMin[t][m], x.res.sMin, x.res.sMax)
  }

  /** Storage of member m at the start of step t (`s[t, m]`). */
  function StorageAt(x: Scenario, m: nat, t: nat): real
    requires m < x.drv.members && t <= x.drv.steps
    decreases t
  {
    if t == 0 then x.res.sIni
    else StepFrom(x, m, t - 1, StorageAt(x, m, t - 1)).next
  }

  /** Everything member m's step t produces. */
  function FlowsAt(x: Scenario, m: nat, t: nat): Flows
    requires m < x.drv.members && t < x.drv.steps
  {
    StepFrom(x, m, t, StorageAt(x, m, t))
  }

  /** `col` lists member m's storages s[0..T] as the run produces them: from
      s_ini, each the next storage of the step before. */
  predicate FollowsSteps(x: Scenario, m: nat, col: seq<real>)
    requires m < x.drv.members
  {
    |col| == x.drv.steps + 1 && col[0] == x.res.sIni
    && forall u :: 0 <= u < x.drv.steps ==> col[u + 1] == StepFrom(x, m, u, col[u]).next
  }

  /** A column that follows the steps is the storage trajectory. */
  lemma {:induction false} StorageOfColumn(x: Scenario, m: nat,
                                           col: seq<real>, u: nat)
    requires m < x.drv.members
    requires FollowsSteps(x, m, col) && u <= x.drv.steps
    ensures col[u] == StorageAt(x, m, u)
  {
    if u > 0 {
      StorageOfColumn(x, m, col, u - 1);
    }
  }

  /** Arrays of shape rows x cols. */
  predicate Shaped(a: array2<real>, rows: nat, cols: nat) {
    a.Length0 == rows && a.Length1 == cols
  }

  /** The six arrays one run writes are pairwise different objects. */
  predicate Separate(a: array2<real>, b: array2<real>, c: array2<real>,
                     d: array2<real>, e: array2<real>, f: array2<real>) {
    && a != b && a != c && a != d && a != e && a != f
    && b != c && b != d && b != e && b != f
    && c != d && c != e && c != f
    && d != e && d != f
    && e != f
  }

  /** The arrays of one run: pairwise different, T x M each, storage (T + 1) x M. */
  predicate Layout(drv: Drivers, qregInf: array2<real>, qregRel: array2<real>,
                   env: array2<real>, spill: array2<real>, s: array2<real>, E: array2<real>) {
    && Separate(qregInf, qregRel, env, spill, s, E)
    && Shaped(qregInf, drv.steps, drv.members) && Shaped(qregRel, drv.steps, drv.members)
    && Shaped(env, drv.steps, drv.members) && Shaped(spill, drv.steps, drv.members)
    && Shaped(E, drv.steps, drv.members) && Shaped(s, drv.steps + 1, drv.members)
  }

  /** Entry (t, m) of `a` is the only one that may differ from `old`. */
  twostate predicate OnlyAt(a: array2<real>, t: int, m: int)
    reads a
  {
    forall u, j :: 0 <= u < a.Length0 && 0 <= j < a.Length1 && (u != t || j != m) ==>
      a[u, j] == old(a[u, j])
  }

  /** Entries outside column m are as in `old`. */
  twostate predicate OnlyColumn(a: array2<real>, m: int)
    reads a
  {
    forall u, j :: 0 <= u < a.Length0 && 0 <= j < a.Length1 && j != m ==> a[u, j] == old(a[u, j])
  }

  /** The entries of step t of a run agree with the flows f. */
  predicate StepWritten(f: Flows, t: nat, m: nat, qregInf: array2<real>, qregRel: array2<real>,
                        env: array2<real>, spill: array2<real>, E: array2<real>)
    reads qregInf, qregRel, env, spill, E
    requires t < qregInf.Length0 && t < qregRel.Length0 && t < env.Length0 && t < spill.Length0 && t < E.Length0
    requires m < qregInf.Length1 && m < qregRel.Length1 && m < env.Length1 && m < spill.Length1 && m < E.Length1
  {
    env[t, m] == f.env && spill[t, m] == f.spill && E[t, m] == f.evap
    && qregRel[t, m] == f.release && qregInf[t, m] == f.regInflow
  }

  /**
    The arithmetic of step t of member m from storage st, statement by
    statement as the source runs it: look up the regulated flows (keeping the
    scheduled values qin and request when there is no policy), then
    evaporation, environmental flow (a first estimate from the inflow alone,
    always overwritten), the clamped release, spill and the next storage.
   */
  method StepValues(x: Scenario, m: nat, t: nat,
                    st: real, qin: real, request: real) returns (f: Flows)
    requires m < x.drv.members && t < x.drv.steps
    requires qin == x.drv.qin[t][m] && request == x.drv.request[t][m]
    ensures f == StepFrom(x, m, t, st)
  {
    var qreg := qin;
    var lookedIn := InflowLookup(x.reg, x.drv.steps, t, st, x.res.sMax);
    if lookedIn.Some? {
      qreg := lookedIn.value;
    }
    var release := request;
    var lookedRel := ReleaseLookup(x.reg, x.drv.steps, t, st, x.res.sMax);
    if lookedRel.Some? {
      release := lookedRel.value;
    }
    var evap := x.drv.evap[t][m] * SurfaceArea;
    var inflow, envMin := x.drv.inflow[t][m], x.drv.envMin[t][m];
    var envFlow;
    if envMin >= inflow + qreg {
      envFlow := inflow + qreg;
    } else {
      envFlow := envMin;
    }
    var avail := Available(st, x.res.sMin, inflow, qreg, evap);
    envFlow := EnvFlow(envMin, avail);
    release := ClampRelease(release, avail, envFlow);
    var wet := st + inflow + qreg - release - envFlow - evap;
    var over := Spill(wet, x.res.sMax);
    var next := Max(x.res.sMin, wet - over);
    f := Flows(qreg, release, envFlow, over, evap, next);
  }

  /** Step t of member m, written into entry (t, m) of every array. */
  method RunStep(x: Scenario, m: nat, t: nat,
                 qregInf: array2<real>, qregRel: array2<real>,
                 env: array2<real>, spill: array2<real>, s: array2<real>, E: array2<real>)
    requires m < x.drv.members && t < x.drv.steps
    requires Layout(x.drv, qregInf, qregRel, env, spill, s, E)
    requires qregInf[t, m] == x.drv.qin[t][m] && qregRel[t, m] == x.drv.request[t][m]
    modifies qregInf, qregRel, env, spill, s, E
    ensures StepWritten(StepFrom(x, m, t, s[t, m]), t, m, qregInf, qregRel, env, spill, E)
    ensures s[t + 1, m] == StepFrom(x, m, t, s[t, m]).next
    ensures OnlyAt(qregInf, t, m) && OnlyAt(qregRel, t, m) && OnlyAt(env, t, m)
    ensures OnlyAt(spill, t, m) && OnlyAt(E, t, m) && OnlyAt(s, t + 1, m)
  {
    var f := StepValues(x, m, t, s[t, m], qregInf[t, m], qregRel[t, m]);
    qregInf[t, m], qregRel[t, m], E[t, m] := f.regInflow, f.release, f.evap;
    env[t, m], spill[t, m], s[t + 1, m] := f.env, f.spill, f.next;
  }

  /** All steps of member m; nothing outside column m changes. */
  method RunMember(x: Scenario, m: nat,
                   qregInf: array2<real>, qregRel: array2<real>,
                   env: array2<real>, spill: array2<real>, s: array2<real>, E: array2<real>)
    requires m < x.drv.members
    requires Layout(x.drv, qregInf, qregRel, env, spill, s, E)
    requires s[0, m] == x.res.sIni
    requires forall t :: 0 <= t < x.drv.steps ==>
               qregInf[t, m] == x.drv.qin[t][m] && qregRel[t, m] == x.drv.request[t][m]
    modifies qregInf, qregRel, env, spill, s, E
    ensures forall t :: 0 <= t <= x.drv.steps ==> s[t, m] == StorageAt(x, m, t)
    ensures forall t :: 0 <= t < x.drv.steps ==>
              StepWritten(FlowsAt(x, m, t), t, m, qregInf, qregRel, env, spill, E)
    ensures OnlyColumn(qregInf, m) && OnlyColumn(qregRel, m) && OnlyColumn(env, m)
    ensures OnlyColumn(spill, m) && OnlyColumn(E, m) && OnlyColumn(s, m)
  {
    var t := 0;
    while t < x.drv.steps
      invariant 0 <= t <= x.drv.steps
      invariant s[0, m] == x.res.sIni
      invariant forall u :: 0 <= u < t ==> s[u + 1, m] == StepFrom(x, m, u, s[u, m]).next
      invariant forall u :: 0 <= u < t ==>
                  StepWritten(StepFrom(x, m, u, s[u, m]), u, m, qregInf, qregRel, env, spill, E)
      invariant forall u :: t <= u < x.drv.steps ==>
                  qregInf[u, m] == x.drv.qin[u][m] && qregRel[u, m] == x.drv.request[u][m]
      invariant OnlyColumn(qregInf, m) && OnlyColumn(qregRel, m) && OnlyColumn(env, m)
      invariant OnlyColumn(spill, m) && OnlyColumn(E, m) && OnlyColumn(s, m)
    {
      RunStep(x, m, t, qregInf, qregRel, env, spill, s, E);
      t := t + 1;
    }
    ghost var column := seq(x.drv.steps + 1, u requires 0 <= u <= x.drv.steps reads s => s[u, m]);
    forall u | 0 <= u <= x.drv.steps
      ensures s[u, m] == StorageAt(x, m, u)
    {
      StorageOfColumn(x, m, column, u);
    }
  }

  /**
    The run (`mass_bal_func` / `Mass_bal_func`): storage starts at s_ini for
    every member, then the members are run one after the other (they share no
    data). The regulated inflow and release arrays are overwritten in place.
   */
  method MassBalance(x: Scenario,
                     qregInf: array2<real>, qregRel: array2<real>)
    returns (env: array2<real>, spill: array2<real>, s: array2<real>, E: array2<real>)
    requires qregInf != qregRel
    requires Shaped(qregInf, x.drv.steps, x.drv.members) && Shaped(qregRel, x.drv.steps, x.drv.members)
    requires forall t, m :: 0 <= t < x.drv.steps && 0 <= m < x.drv.members ==>
               qregInf[t, m] == x.drv.qin[t][m] && qregRel[t, m] == x.drv.request[t][m]
    modifies qregInf, qregRel
    ensures fresh(env) && fresh(spill) && fresh(s) && fresh(E)
    ensures Shaped(env, x.drv.steps, x.drv.members) && Shaped(spill, x.drv.steps, x.drv.members)
    ensures Shaped(E, x.drv.steps, x.drv.members) && Shaped(s, x.drv.steps + 1, x.drv.members)
    ensures forall t, m :: 0 <= t <= x.drv.steps && 0 <= m < x.drv.members ==>
              s[t, m] == StorageAt(x, m, t)
    ensures forall t, m :: 0 <= t < x.drv.steps && 0 <= m < x.drv.members ==>
              StepWritten(FlowsAt(x, m, t), t, m, qregInf, qregRel, env, spill, E)
  {
    var T, M := x.drv.steps, x.drv.members;
    s := new real[T + 1, M];
    env := new real[T, M];
    spill := new real[T, M];
    E := new real[T, M];
    forall m | 0 <= m < M {
      s[0, m] := x.res.sIni;
    }
    var m := 0;
    while m < M
      invariant 0 <= m <= M
      invariant forall j :: m <= j < M ==> s[0, j] == x.res.sIni
      invariant forall t, j :: 0 <= t <= T && 0 <= j < m ==> s[t, j] == StorageAt(x, j, t)
      invariant forall t, j :: 0 <= t < T && 0 <= j < m ==>
                  StepWritten(FlowsAt(x, j, t), t, j, qregInf, qregRel, env, spill, E)
      invariant forall t, j :: 0 <= t < T && m <= j < M ==>
                  qregInf[t, j] == x.drv.qin[t][j] && qregRel[t, j] == x.drv.request[t][j]
    {
      RunMember(x, m, qregInf, qregRel, env, spill, s, E);
      m := m + 1;
    }
  }

  // ---------------------------------------------------------------------
  // Properties of a run
  // ---------------------------------------------------------------------

  /** Water available at the start of member m's step t, once the regulated
      inflow is looked up: s - s_min + I + Qreg_inf - E. */
  function AvailableAt(x: Scenario, m: nat, t: nat): real
    requires m < x.drv.members && t < x.drv.steps
  {
    var f := FlowsAt(x, m, t);
    Available(StorageAt(x, m, t), x.res.sMin, x.drv.inflow[t][m], f.regInflow, f.evap)
  }

  /** Every storage after the first lies in [s_min, s_max]; spill is never
      negative and, when positive, leaves the reservoir exactly full. */
  lemma StorageWithinBounds(x: Scenario, m: nat, t: nat)
    requires m < x.drv.members && t < x.drv.steps
    requires x.res.sMin <= x.res.sMax
    ensures x.res.sMin <= StorageAt(x, m, t + 1) <= x.res.sMax
    ensures 0.0 <= FlowsAt(x, m, t).spill
    ensures FlowsAt(x, m, t).spill > 0.0 ==> StorageAt(x, m, t + 1) == x.res.sMax
  {
    var st := StorageAt(x, m, t);
    var qin := InflowLookup(x.reg, x.drv.steps, t, st, x.res.sMax).GetOr(x.drv.qin[t][m]);
    var request := ReleaseLookup(x.reg, x.drv.steps, t, st, x.res.sMax).GetOr(x.drv.request[t][m]);
    StepBounds(st, x.drv.inflow[t][m], qin, request, x.drv.evap[t][m], x.drv.envMin[t][m], x.res.sMin, x.res.sMax);
  }

  /** The environmental flow: the requirement in full when the available water
      exceeds it, otherwise all the available water but never below zero; so it
      lies in [0, env_min] for a non-negative requirement. */
  lemma EnvironmentalFlowRule(x: Scenario, m: nat, t: nat)
    requires m < x.drv.members && t < x.drv.steps
    ensures var a, env := AvailableAt(x, m, t), FlowsAt(x, m, t).env;
      && (x.drv.envMin[t][m] < a ==> env == x.drv.envMin[t][m])
      && (a <= x.drv.envMin[t][m] ==> env == Max(0.0, a))
      && (0.0 <= x.drv.envMin[t][m] ==> 0.0 <= env <= x.drv.envMin[t][m])
  {
    var st := StorageAt(x, m, t);
    var f := FlowsAt(x, m, t);
    EnvFlowPriority(x.drv.envMin[t][m], Available(st, x.res.sMin, x.drv.inflow[t][m], f.regInflow, f.evap));
  }

  /** The release never exceeds the request (scheduled or looked up), is not
      negative for a non-negative request, and is the full request whenever the
      water left after the environmental flow covers it. */
  lemma ReleaseRule(x: Scenario, m: nat, t: nat)
    requires m < x.drv.members && t < x.drv.steps
    ensures var st := StorageAt(x, m, t);
            var request := ReleaseLookup(x.reg, x.drv.steps, t, st, x.res.sMax).GetOr(x.drv.request[t][m]);
            var f := FlowsAt(x, m, t);
      && f.release <= request
      && (0.0 <= request ==> 0.0 <= f.release)
      && (request <= AvailableAt(x, m, t) - f.env ==> f.release == request)
  {
    var st := StorageAt(x, m, t);
    var request := ReleaseLookup(x.reg, x.drv.steps, t, st, x.res.sMax).GetOr(x.drv.request[t][m]);
    var f := FlowsAt(x, m, t);
    ClampReleaseBounds(request, AvailableAt(x, m, t), f.env);
  }

  /** Inflows minus outflows of member m's step t. */
  function NetInflow(f: Flows, inflow: real): real {
    inflow + f.regInflow - f.release - f.env - f.evap - f.spill
  }

  /** Mass is conserved in every step whose available water is not negative. */
  lemma StepBalance(x: Scenario, m: nat, t: nat)
    requires m < x.drv.members && t < x.drv.steps
    requires x.res.sMin <= x.res.sMax && 0.0 <= AvailableAt(x, m, t)
    ensures StorageAt(x, m, t + 1)
            == StorageAt(x, m, t) + NetInflow(FlowsAt(x, m, t), x.drv.inflow[t][m])
  {
    var st := StorageAt(x, m, t);
    var qin := InflowLookup(x.reg, x.drv.steps, t, st, x.res.sMax).GetOr(x.drv.qin[t][m]);
    var request := ReleaseLookup(x.reg, x.drv.steps, t, st, x.res.sMax).GetOr(x.drv.request[t][m]);
    StepConservation(st, x.drv.inflow[t][m], qin, request, x.drv.evap[t][m], x.drv.envMin[t][m], x.res.sMin, x.res.sMax);
  }

  /** Sum of the net inflows of member m's first t steps. */
  function TotalNetInflow(x: Scenario, m: nat, t: nat): real
    requires m < x.drv.members && t <= x.drv.steps
  {
    if t == 0 then 0.0
    else TotalNetInflow(x, m, t - 1) + NetInflow(FlowsAt(x, m, t - 1), x.drv.inflow[t - 1][m])
  }

  /** None of member m's first t steps starts with negative available water. */
  predicate NeverShort(x: Scenario, m: nat, t: nat)
    requires m < x.drv.members && t <= x.drv.steps
  {
    t == 0 || (NeverShort(x, m, t - 1) && 0.0 <= AvailableAt(x, m, t - 1))
  }

  /** Over a stretch of steps that never run short of water, storage is the
      initial storage plus everything that came in minus everything that left. */
  lemma {:induction false} CumulativeBalance(x: Scenario, m: nat, t: nat)
    requires m < x.drv.members && t <= x.drv.steps
    requires x.res.sMin <= x.res.sMax && NeverShort(x, m, t)
    ensures StorageAt(x, m, t) == x.res.sIni + TotalNetInflow(x, m, t)
  {
    if t > 0 {
      CumulativeBalance(x, m, t - 1);
      StepBalance(x, m, t - 1);
    }
  }

  // ---------------------------------------------------------------------
  // Policy lookups
  // ---------------------------------------------------------------------

  /** Every entry of a table lies in [lo, hi]. */
  predicate TableWithin(a: Matrix, lo: real, hi: real) {
    forall i, j :: 0 <= i < |a| && 0 <= j < |a[i]| ==> lo <= a[i][j] <= hi
  }

  /** The release policy of a run, whichever copy's form it takes, has all its
      entries in [lo, hi]. */
  predicate ReleasePolicyWithin(reg: Regulation, lo: real, hi: real) {
    match reg
    case ByIndex(_, _, pRel, _) => TableWithin(pRel, lo, hi)
    case ByStep(_, _, Vector(v)) => Within(v, lo, hi)
    case ByStep(_, _, Table(rows)) => TableWithin(rows, lo, hi)
  }

  /** A looked-up release never leaves the range of the policy's values. */
  lemma ReleaseLookupWithin(reg: Regulation, steps: nat, t: nat, s: real, sMax: real, lo: real, hi: real)
    requires RegulationFits(reg, steps, sMax) && t < steps
    requires ReleasePolicyWithin(reg, lo, hi)
    ensures ReleaseLookup(reg, steps, t, s, sMax).Some? ==>
              lo <= ReleaseLookup(reg, steps, t, s, sMax).value <= hi
  {
    match reg
    case ByIndex(sFrac, _, pRel, relIdx) =>
      if 1 < |pRel| {
        var c := if 1 < Width(pRel) then relIdx[t] else 0;
        InterpWithin(s / sMax, sFrac, Column(pRel, c), lo, hi);
      }
    case ByStep(sFrac, _, pRel) =>
      if 1 < Len(pRel) {
        match pRel
        case Vector(v) => InterpWithin(s / sMax, sFrac, v, lo, hi);
        case Table(rows) => InterpWithin(s / sMax, sFrac, Column(rows, t), lo, hi);
      }
  }

  /** The release column a Software-copy lookup uses at step t is non-decreasing. */
  predicate ReleaseColumnRises(reg: Regulation, steps: nat, sMax: real, t: nat)
    requires RegulationFits(reg, steps, sMax) && t < steps && reg.ByIndex?
  {
    1 < |reg.policyRel| ==>
      NonDecreasing(Column(reg.policyRel, if 1 < Width(reg.policyRel) then reg.relIdx[t] else 0))
  }

  /** With a release policy that rises with storage, a fuller reservoir never
      gets a smaller looked-up release. */
  lemma ReleaseLookupMonotone(reg: Regulation, steps: nat, t: nat, s1: real, s2: real, sMax: real)
    requires RegulationFits(reg, steps, sMax) && t < steps && reg.ByIndex?
    requires ReleaseColumnRises(reg, steps, sMax, t)
    requires 0.0 < sMax && s1 <= s2
    ensures ReleaseLookup(reg, steps, t, s1, sMax).Some? ==>
              ReleaseLookup(reg, steps, t, s1, sMax).value <= ReleaseLookup(reg, steps, t, s2, sMax).value
  {
    var pRel := reg.policyRel;
    if 1 < |pRel| {
      var c := if 1 < Width(pRel) then reg.relIdx[t] else 0;
      MulMonotone(s1, s2, 1.0 / sMax);
      InterpMonotone(s1 / sMax, s2 / sMax, reg.sFrac, Column(pRel, c));
    }
  }

  /** A Functions-copy rule-curve table whose every column is the same policy v
      is looked up exactly like the static policy v. */
  lemma RepeatedColumnsAsStatic(sFrac: seq<real>, rows: Matrix, v: seq<real>, steps: nat, t: nat, x: real)
    requires 0 < |sFrac| && NonDecreasing(sFrac) && 1 < |v| == |sFrac| && t < steps
    requires ByStepPolicyFits(Table(rows), sFrac, steps)
    requires |rows| == |v| && forall i, j :: 0 <= i < |rows| && 0 <= j < |rows[i]| ==> rows[i][j] == v[i]
    ensures PolicyAt(Table(rows), sFrac, steps, t, x) == PolicyAt(Vector(v), sFrac, steps, t, x)
  {
    assert Column(rows, t) == v;
  }

  // ---------------------------------------------------------------------
  // The engines' published test vectors
  // ---------------------------------------------------------------------

  /** Ten weeks, one member: inflow I, evaporation 1, demand 9, environmental
      requirement 2, no regulated inflow. */
  function TestDrivers(inflow: real): Drivers {
    Drivers(10, 1, Filled(10, 1, inflow), Filled(10, 1, 1.0), Filled(10, 1, 2.0),
            Filled(10, 1, 0.0), Filled(10, 1, 9.0))
  }

  /** Storage starts at 20 within bounds [5, 100]. */
  const TestReservoir: Reservoir := Reservoir(20.0, 5.0, 100.0)

  /** Without any policy, the step only sees the scheduled flows. */
  lemma UnregulatedStep(x: Scenario, m: nat, t: nat, st: real)
    requires m < x.drv.members && t < x.drv.steps && !LooksUp(x.reg)
    ensures StepFrom(x, m, t, st)
            == Step(st, x.drv.inflow[t][m], x.drv.qin[t][m], x.drv.request[t][m], x.drv.evap[t][m],
                    x.drv.envMin[t][m], x.res.sMin, x.res.sMax)
  {
  }

  /** A run of the test drivers with the given inflow and no policy. */
  predicate TestRun(x: Scenario, inflow: real) {
    x.res == TestReservoir && x.drv == TestDrivers(inflow) && !LooksUp(x.reg)
  }

  /** Every step of a test run is the step from the current storage with the
      test's constant flows. */
  lemma TestStep(x: Scenario, inflow: real, t: nat)
    requires TestRun(x, inflow) && t < 10
    ensures var f := Step(StorageAt(x, 0, t), inflow, 0.0, 9.0, 1.0, 2.0, 5.0, 100.0);
      FlowsAt(x, 0, t) == f && StorageAt(x, 0, t + 1) == f.next
  {
    UnregulatedStep(x, 0, t, StorageAt(x, 0, t));
  }

  /** From any storage within the bounds, inflow 10 drains the reservoir by 2
      down to the minimum, releasing the demand of 9 while the water left
      after the environmental flow (storage + 2) covers it. */
  lemma DrawdownStep(st: real)
    requires 5.0 <= st <= 100.0
    ensures var f := Step(st, 10.0, 0.0, 9.0, 1.0, 2.0, 5.0, 100.0);
      f.next == Max(5.0, st - 2.0) && f.release == Min(9.0, st + 2.0) && f.spill == 0.0
  {
  }

  /** With inflow 50 the reservoir gains 38 a week until it is full; the excess
      spills. */
  lemma FillStep(st: real)
    requires 5.0 <= st <= 100.0
    ensures var f := Step(st, 50.0, 0.0, 9.0, 1.0, 2.0, 5.0, 100.0);
      f.next == Min(100.0, st + 38.0) && f.spill == Max(0.0, st + 38.0 - 100.0)
  {
  }

  /** Storage after t weeks of the inflow-10 test: max(5, 20 - 2t). */
  lemma {:induction false} DrawdownStorage(x: Scenario, t: nat)
    requires TestRun(x, 10.0) && t <= 10
    ensures StorageAt(x, 0, t) == Max(5.0, 20.0 - 2.0 * t as real)
  {
    if t > 0 {
      DrawdownStorage(x, t - 1);
      TestStep(x, 10.0, t - 1);
      DrawdownStep(Max(5.0, 20.0 - 2.0 * (t - 1) as real));
    }
  }

  /** Storage after t weeks of the inflow-50 test: min(100, 20 + 38t). */
  lemma {:induction false} FillStorage(x: Scenario, t: nat)
    requires TestRun(x, 50.0) && t <= 10
    ensures StorageAt(x, 0, t) == Min(100.0, 20.0 + 38.0 * t as real)
  {
    if t > 0 {
      FillStorage(x, t - 1);
      TestStep(x, 50.0, t - 1);
      FillStep(Min(100.0, 20.0 + 38.0 * (t - 1) as real));
    }
  }

  /** Release in week t of the inflow-10 test: min(9, storage + 2). */
  lemma DrawdownRelease(x: Scenario, t: nat)
    requires TestRun(x, 10.0) && t < 10
    ensures FlowsAt(x, 0, t).release == Min(9.0, Max(5.0, 20.0 - 2.0 * t as real) + 2.0)
  {
    DrawdownStorage(x, t);
    TestStep(x, 10.0, t);
    DrawdownStep(Max(5.0, 20.0 - 2.0 * t as real));
  }

  /** Inflow 10: the reservoir is drawn down by 2 a week to the minimum of 5,
      and the release drops from the demand of 9 to 8 and then 7. */
  lemma DrawdownVector(x: Scenario)
    requires TestRun(x, 10.0)
    ensures forall t :: 0 <= t <= 10 ==>
              StorageAt(x, 0, t) == [20.0, 18.0, 16.0, 14.0, 12.0, 10.0, 8.0, 6.0, 5.0, 5.0, 5.0][t]
    ensures forall t :: 0 <= t < 10 ==>
              FlowsAt(x, 0, t).release == [9.0, 9.0, 9.0, 9.0, 9.0, 9.0, 9.0, 8.0, 7.0, 7.0][t]
  {
    forall t | 0 <= t <= 10
      ensures StorageAt(x, 0, t) == [20.0, 18.0, 16.0, 14.0, 12.0, 10.0, 8.0, 6.0, 5.0, 5.0, 5.0][t]
    {
      DrawdownStorage(x, t);
    }
    forall t | 0 <= t < 10
      ensures FlowsAt(x, 0, t).release == [9.0, 9.0, 9.0, 9.0, 9.0, 9.0, 9.0, 8.0, 7.0, 7.0][t]
    {
      DrawdownRelease(x, t);
    }
  }

  /** Inflow 50: the reservoir fills, spills 34 in the third week and then
      spills the 38 it gains every week. */
  lemma SpillVector(x: Scenario)
    requires TestRun(x, 50.0)
    ensures forall t :: 0 <= t < 10 ==>
              FlowsAt(x, 0, t).spill == [0.0, 0.0, 34.0, 38.0, 38.0, 38.0, 38.0, 38.0, 38.0, 38.0][t]
  {
    forall t | 0 <= t < 10
      ensures FlowsAt(x, 0, t).spill == [0.0, 0.0, 34.0, 38.0, 38.0, 38.0, 38.0, 38.0, 38.0, 38.0][t]
    {
      FillStorage(x, t);
      TestStep(x, 50.0, t);
      FillStep(Min(100.0, 20.0 + 38.0 * t as real));
    }
  }
}
