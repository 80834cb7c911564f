/**
  The single-trace engine `Mass_bal_func` of
  Toolbox/Reservoir_system_simulation/Res_sys_sim.py. It runs the same
  allocation order as the iRONS engines (environmental flow, release, spill,
  storage floored at the minimum) on 1-D arrays, with two differences: the
  release is cut to the water left after the environmental flow WITHOUT a
  floor at zero, and a policy is looked up only when its first entry is not
  the NaN "no policy" sentinel (modelled as `None`).
 */
module ToolboxSim {
  import opened Wrappers
  import opened Interpolation
  import opened ReservoirStep

  /** `min(Qreg_rel, A - env)`: no floor at zero. */
  function CutRelease(request: real, avail: real, env: real): real {
    Min(request, avail - env)
  }

  /** The release never exceeds the request nor the water left after the
      environmental flow, is the request when that water suffices, and is
      otherwise exactly that water, negative or not. */
  lemma CutReleaseBounds(request: real, avail: real, env: real)
    ensures CutRelease(request, avail, env) <= request
    ensures CutRelease(request, avail, env) <= avail - env
    ensures request <= avail - env ==> CutRelease(request, avail, env) == request
    ensures avail - env < request ==> CutRelease(request, avail, env) == avail - env
  {
  }

  /** One step of the Toolbox engine from storage s. */
  function Step(s: real, inflow: real, qin: real, request: real, e: real,
                envMin: real, sMin: real, sMax: real): Flows
  {
    var evap := e * SurfaceArea;
    var avail := Available(s, sMin, inflow, qin, evap);
    var env := EnvFlow(envMin, avail);
    var release := CutRelease(request, avail, env);
    var wet := s + inflow + qin - release - env - evap;
    var spill := Spill(wet, sMax);
    Flows(qin, release, env, spill, evap, Max(sMin, wet - spill))
  }

  /** Storage stays within [s_min, s_max], spill is never negative and is
      positive only when the reservoir ends the step full; evaporation is e. */
  lemma StepBounds(s: real, inflow: real, qin: real, request: real, e: real,
                   envMin: real, sMin: real, sMax: real)
    ensures var f := Step(s, inflow, qin, request, e, envMin, sMin, sMax);
      && f.regInflow == qin && f.evap == e
      && 0.0 <= f.spill
      && (sMin <= sMax ==> sMin <= f.next <= sMax)
      && (0.0 < f.spill && sMin <= sMax ==> f.next == sMax)
      && f.release <= request
      && f.release <= Available(s, sMin, inflow, qin, e) - f.env
  {
    var avail := Available(s, sMin, inflow, qin, e);
    var env := EnvFlow(envMin, avail);
    CutReleaseBounds(request, avail, env);
    SpillExact(s + inflow + qin - CutRelease(request, avail, env) - env - e, sMax);
  }

  /** Because the release never exceeds the water left after the
      environmental flow, the floor at s_min never adds water: mass is
      conserved at every step, with no condition on the available water. */
  lemma StepConservation(s: real, inflow: real, qin: real, request: real, e: real,
                         envMin: real, sMin: real, sMax: real)
    requires sMin <= sMax
    ensures var f := Step(s, inflow, qin, request, e, envMin, sMin, sMax);
      f.next == s + inflow + qin - f.release - f.env - f.evap - f.spill
  {
    var avail := Available(s, sMin, inflow, qin, e);
    var env := EnvFlow(envMin, avail);
    var release := CutRelease(request, avail, env);
    CutReleaseBounds(request, avail, env);
    var wet := s + inflow + qin - release - env - e;
    assert sMin <= wet;
    SpillExact(wet, sMax);
  }

  /** With negative available water and a non-negative requirement, the
      environmental flow is zero and the release is negative: water is
      "released" into the reservoir to keep storage at the minimum. */
  lemma NegativeRelease(s: real, inflow: real, qin: real, request: real, e: real,
                        envMin: real, sMin: real, sMax: real)
    requires Available(s, sMin, inflow, qin, e) < 0.0 && 0.0 <= envMin
    ensures var f := Step(s, inflow, qin, request, e, envMin, sMin, sMax);
      f.env == 0.0 && f.release < 0.0
  {
  }

  /** The arguments of `Mass_bal_func`. A policy is `None` when its first
      entry is NaN. */
  datatype Inputs = Inputs(sIni: real, sMin: real, sMax: real,
                           inflow: seq<real>, evap: seq<real>, envMin: seq<real>,
                           qin: seq<real>, request: seq<real>,
                           sFrac: seq<real>, policyInf: Option<seq<real>>, policyRel: Option<seq<real>>)

  /** Every series has one entry per step and a policy one entry per storage
      fraction (numpy.interp demands it); a looked-up policy needs s_max != 0. */
  predicate WellFormed(x: Inputs) {
    && |x.evap| == |x.inflow| && |x.envMin| == |x.inflow|
    && |x.qin| == |x.inflow| && |x.request| == |x.inflow|
    && 0 < |x.sFrac| && NonDecreasing(x.sFrac)
    && (x.policyInf.Some? ==> |x.policyInf.value| == |x.sFrac|)
    && (x.policyRel.Some? ==> |x.policyRel.value| == |x.sFrac|)
    && (x.policyInf.Some? || x.policyRel.Some? ==> x.sMax != 0.0)
  }

  type Scenario = x: Inputs | WellFormed(x)
    witness Inputs(0.0, 0.0, 0.0, [], [], [], [], [], [0.0], None, None)

  /** Step t from storage s: a policy that is present replaces the scheduled value. */
  function StepFrom(x: Scenario, t: nat, s: real): Flows
    requires t < |x.inflow|
  {
    var qin := if x.policyInf.Some? then Interp(s / x.sMax, x.sFrac, x.policyInf.value) else x.qin[t];
    var request := if x.policyRel.Some? then Interp(s / x.sMax, x.sFrac, x.policyRel.value) else x.request[t];
    Step(s, x.inflow[t], qin, request, x.evap[t], x.envMin[t], x.sMin, x.sMax)
  }

  /** `s[t]`. */
  function StorageAt(x: Scenario, t: nat): real
    requires t <= |x.inflow|
  {
    if t == 0 then x.sIni else StepFrom(x, t - 1, StorageAt(x, t - 1)).next
  }

  /** Everything step t produces. */
  function FlowsAt(x: Scenario, t: nat): Flows
    requires t < |x.inflow|
  {
    StepFrom(x, t, StorageAt(x, t))
  }

  /** `col` starts at s_0 and each entry is the next storage of the step before. */
  predicate FollowsSteps(x: Scenario, col: seq<real>) {
    |col| == |x.inflow| + 1 && col[0] == x.sIni
    && forall u :: 0 <= u < |x.inflow| ==> col[u + 1] == StepFrom(x, u, col[u]).next
  }

  /** Such a column is the storage trajectory. */
  lemma {:induction false} StorageOfColumn(x: Scenario, col: seq<real>, u: nat)
    requires FollowsSteps(x, col) && u <= |x.inflow|
    ensures col[u] == StorageAt(x, u)
  {
    if u > 0 {
      StorageOfColumn(x, col, u - 1);
    }
  }

  /**
    The arithmetic of step t from storage st in the source's statement order:
    the policy lookups, evaporation, the environmental flow (first estimate
    overwritten), the cut release, spill and the next storage.
   */
  method StepValues(x: Scenario, t: nat, st: real, qin: real, request: real) returns (f: Flows)
    requires t < |x.inflow| && qin == x.qin[t] && request == x.request[t]
    ensures f == StepFrom(x, t, st)
  {
    var qreg, release := qin, request;
    if x.policyInf.Some? {
      qreg := Interp(st / x.sMax, x.sFrac, x.policyInf.value);
    }
    if x.policyRel.Some? {
      release := Interp(st / x.sMax, x.sFrac, x.policyRel.value);
    }
    var evap := x.evap[t] * SurfaceArea;
    var envFlow;
    if x.envMin[t] >= x.inflow[t] + qreg {
      envFlow := x.inflow[t] + qreg;
    } else {
      envFlow := x.envMin[t];
    }
    var avail := Available(st, x.sMin, x.inflow[t], qreg, evap);
    envFlow := EnvFlow(x.envMin[t], avail);
    release := CutRelease(release, avail, envFlow);
    var wet := st + x.inflow[t] + qreg - release - envFlow - evap;
    var over := Spill(wet, x.sMax);
    f := Flows(qreg, release, envFlow, over, evap, Max(x.sMin, wet - over));
  }

  /** The six arrays of a run: pairwise different, T entries each, storage T + 1. */
  predicate Layout(steps: nat, qregInf: array<real>, qregRel: array<real>,
                   env: array<real>, spill: array<real>, s: array<real>, E: array<real>) {
    && qregInf != qregRel && qregInf != env && qregInf != spill && qregInf != s && qregInf != E
    && qregRel != env && qregRel != spill && qregRel != s && qregRel != E
    && env != spill && env != s && env != E
    && spill != s && spill != E
    && s != E
    && qregInf.Length == steps && qregRel.Length == steps && env.Length == steps
    && spill.Length == steps && E.Length == steps && s.Length == steps + 1
  }

  /** Entry t of `a` is the only one that may differ from `old`. */
  twostate predicate OnlyAt(a: array<real>, t: int)
    reads a
  {
    forall u :: 0 <= u < a.Length && u != t ==> a[u] == old(a[u])
  }

  /** Step t: its flows go to entry t of the step arrays and its next storage to s[t + 1]. */
  method RunStep(x: Scenario, t: nat, qregInf: array<real>, qregRel: array<real>,
                 env: array<real>, spill: array<real>, s: array<real>, E: array<real>)
    requires t < |x.inflow| && Layout(|x.inflow|, qregInf, qregRel, env, spill, s, E)
    requires Done(x, t, s[..], qregInf[..], qregRel[..], env[..], spill[..], E[..])
    requires qregInf[t] == x.qin[t] && qregRel[t] == x.request[t]
    modifies qregInf, qregRel, env, spill, s, E
    ensures Done(x, t + 1, s[..], qregInf[..], qregRel[..], env[..], spill[..], E[..])
    ensures OnlyAt(qregInf, t) && OnlyAt(qregRel, t)
  {
    ghost var col, qi, qr, en, sp, ev := s[..], qregInf[..], qregRel[..], env[..], spill[..], E[..];
    var f := StepValues(x, t, s[t], qregInf[t], qregRel[t]);
    qregInf[t], qregRel[t], E[t] := f.regInflow, f.release, f.evap;
    env[t], spill[t], s[t + 1] := f.env, f.spill, f.next;
    DoneStep(x, t, col, qi, qr, en, sp, ev, s[..], qregInf[..], qregRel[..], env[..], spill[..], E[..]);
  }

  /** The entries one step wrote (next storage, regulated inflow, release,
      environmental flow, spill, evaporation) are flows f. */
  predicate Holds(f: Flows, next: real, qi: real, qr: real, en: real, sp: real, ev: real) {
    next == f.next && qi == f.regInflow && qr == f.release && en == f.env
    && sp == f.spill && ev == f.evap
  }

  /** The first t steps are done: `col` holds their storage and the five
      step series their flows. */
  predicate Done(x: Scenario, t: nat, col: seq<real>, qi: seq<real>, qr: seq<real>,
                 en: seq<real>, sp: seq<real>, ev: seq<real>)
    requires t <= |x.inflow| < |col|
    requires |qi| == |qr| == |en| == |sp| == |ev| == |x.inflow|
  {
    && col[0] == x.sIni
    && forall u :: 0 <= u < t ==>
         Holds(StepFrom(x, u, col[u]), col[u + 1], qi[u], qr[u], en[u], sp[u], ev[u])
  }

  /** One more step done: the earlier entries were left alone and step t was written. */
  lemma DoneStep(x: Scenario, t: nat, col: seq<real>, qi: seq<real>, qr: seq<real>,
                 en: seq<real>, sp: seq<real>, ev: seq<real>,
                 col': seq<real>, qi': seq<real>, qr': seq<real>,
                 en': seq<real>, sp': seq<real>, ev': seq<real>)
    requires t < |x.inflow| && |col| == |col'| == |x.inflow| + 1
    requires |qi| == |qr| == |en| == |sp| == |ev| == |x.inflow|
    requires |qi'| == |qr'| == |en'| == |sp'| == |ev'| == |x.inflow|
    requires Done(x, t, col, qi, qr, en, sp, ev)
    requires col'[..t + 1] == col[..t + 1]
    requires qi'[..t] == qi[..t] && qr'[..t] == qr[..t] && en'[..t] == en[..t]
    requires sp'[..t] == sp[..t] && ev'[..t] == ev[..t]
    requires Holds(StepFrom(x, t, col'[t]), col'[t + 1], qi'[t], qr'[t], en'[t], sp'[t], ev'[t])
    ensures Done(x, t + 1, col', qi', qr', en', sp', ev')
  {
    forall u | 0 <= u < t
      ensures Holds(StepFrom(x, u, col'[u]), col'[u + 1], qi'[u], qr'[u], en'[u], sp'[u], ev'[u])
    {
      assert col'[..t + 1][u] == col[..t + 1][u] && col'[..t + 1][u + 1] == col[..t + 1][u + 1];
      assert qi'[..t][u] == qi[..t][u] && qr'[..t][u] == qr[..t][u] && en'[..t][u] == en[..t][u];
      assert sp'[..t][u] == sp[..t][u] && ev'[..t][u] == ev[..t][u];
    }
    assert col'[..t + 1][0] == col[..t + 1][0];
  }

  /**
    `Mass_bal_func`: fresh arrays env, spill and E of length T and s of length
    T + 1 with s[0] = s_0; the caller's regulated inflow and release arrays
    are overwritten in place with the values the steps used.
   */
  method MassBalFunc(x: Scenario, qregInf: array<real>, qregRel: array<real>)
    returns (env: array<real>, spill: array<real>, s: array<real>, E: array<real>)
    requires qregInf != qregRel
    requires qregInf[..] == x.qin && qregRel[..] == x.request
    modifies qregInf, qregRel
    ensures fresh(env) && fresh(spill) && fresh(s) && fresh(E)
    ensures env.Length == spill.Length == E.Length == |x.inflow| && s.Length == |x.inflow| + 1
    ensures Done(x, |x.inflow|, s[..], qregInf[..], qregRel[..], env[..], spill[..], E[..])
  {
    var T := |x.inflow|;
    s := new real[T + 1];
    env := new real[T];
    spill := new real[T];
    E := new real[T];
    s[0] := x.sIni;
    var t := 0;
    while t < T
      invariant 0 <= t <= T
      invariant Layout(T, qregInf, qregRel, env, spill, s, E)
      invariant Done(x, t, s[..], qregInf[..], qregRel[..], env[..], spill[..], E[..])
      invariant forall u :: t <= u < T ==> qregInf[u] == x.qin[u] && qregRel[u] == x.request[u]
      modifies qregInf, qregRel, env, spill, s, E
    {
      RunStep(x, t, qregInf, qregRel, env, spill, s, E);
      t := t + 1;
    }
  }

  /** Series that complete all T steps are the storage trajectory and the
      flows of the scenario: what `Mass_bal_func` returns is determined by
      its inputs alone. */
  lemma DoneIsRun(x: Scenario, col: seq<real>, qi: seq<real>, qr: seq<real>,
                  en: seq<real>, sp: seq<real>, ev: seq<real>)
    requires |col| == |x.inflow| + 1
    requires |qi| == |qr| == |en| == |sp| == |ev| == |x.inflow|
    requires Done(x, |x.inflow|, col, qi, qr, en, sp, ev)
    ensures forall t :: 0 <= t <= |x.inflow| ==> col[t] == StorageAt(x, t)
    ensures forall t :: 0 <= t < |x.inflow| ==>
              Holds(FlowsAt(x, t), col[t + 1], qi[t], qr[t], en[t], sp[t], ev[t])
  {
    assert FollowsSteps(x, col);
    forall t | 0 <= t <= |x.inflow|
      ensures col[t] == StorageAt(x, t)
    {
      StorageOfColumn(x, col, t);
    }
  }

  // ---------------------------------------------------------------------
  // Properties of a run
  // ---------------------------------------------------------------------

  /** After every step storage lies within [s_min, s_max]; spill is never
      negative and, when positive, leaves the reservoir exactly full. */
  lemma StorageWithinBounds(x: Scenario, t: nat)
    requires t < |x.inflow| && x.sMin <= x.sMax
    ensures x.sMin <= StorageAt(x, t + 1) <= x.sMax
    ensures 0.0 <= FlowsAt(x, t).spill
    ensures 0.0 < FlowsAt(x, t).spill ==> StorageAt(x, t + 1) == x.sMax
  {
    var st := StorageAt(x, t);
    var f := StepFrom(x, t, st);
    StepBounds(st, x.inflow[t], f.regInflow,
               if x.policyRel.Some? then Interp(st / x.sMax, x.sFrac, x.policyRel.value) else x.request[t],
               x.evap[t], x.envMin[t], x.sMin, x.sMax);
  }

  /** A policy replaces the scheduled flow exactly when it is present: the
      regulated inflow is the inflow policy's value, and the release is the
      release policy's value (or the scheduled release without one) cut only
      by the water left after the environmental flow. */
  lemma LookupWhenPresent(x: Scenario, t: nat, st: real)
    requires t < |x.inflow|
    ensures var qin := if x.policyInf.Some? then Interp(st / x.sMax, x.sFrac, x.policyInf.value) else x.qin[t];
      var request := if x.policyRel.Some? then Interp(st / x.sMax, x.sFrac, x.policyRel.value) else x.request[t];
      var f := StepFrom(x, t, st);
      var left := Available(st, x.sMin, x.inflow[t], qin, x.evap[t]) - f.env;
      && f.regInflow == qin
      && f.release == Min(request, left)
      && (request <= left ==> f.release == request)
  {
    var qin := StepFrom(x, t, st).regInflow;
    var request := if x.policyRel.Some? then Interp(st / x.sMax, x.sFrac, x.policyRel.value) else x.request[t];
    StepBounds(st, x.inflow[t], qin, request, x.evap[t], x.envMin[t], x.sMin, x.sMax);
  }

  /** Net inflow of a step: inflows minus every outflow. */
  function NetInflow(f: Flows, inflow: real): real {
    inflow + f.regInflow - f.release - f.env - f.evap - f.spill
  }

  /** Sum of the net inflows of the first t steps. */
  function TotalNetInflow(x: Scenario, t: nat): real
    requires t <= |x.inflow|
  {
    if t == 0 then 0.0 else TotalNetInflow(x, t - 1) + NetInflow(FlowsAt(x, t - 1), x.inflow[t - 1])
  }

  /** Storage is always s_0 plus everything that came in minus everything that
      left: unlike the iRONS engines, no step can create water. */
  lemma {:induction false} CumulativeBalance(x: Scenario, t: nat)
    requires t <= |x.inflow| && x.sMin <= x.sMax
    ensures StorageAt(x, t) == x.sIni + TotalNetInflow(x, t)
  {
    if t > 0 {
      CumulativeBalance(x, t - 1);
      var st := StorageAt(x, t - 1);
      var f := FlowsAt(x, t - 1);
      var request := if x.policyRel.Some? then Interp(st / x.sMax, x.sFrac, x.policyRel.value) else x.request[t - 1];
      StepConservation(st, x.inflow[t - 1], f.regInflow, request, x.evap[t - 1], x.envMin[t - 1], x.sMin, x.sMax);
    }
  }
}
