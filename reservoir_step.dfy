/**
  One time step of the reservoir mass balance as the two iRONS engines
  (iRONS/Software/res_sys_sim.py and iRONS/Functions/Reservoir_system_simulation/Res_sys_sim.py)
  compute it. The step allocates water in a fixed order: environmental
  compensation flow first, then the regulated release, then spill over the
  capacity; the new storage is what is left, never below the minimum storage.
 */
module ReservoirStep {

  function Max(a: real, b: real): real { if a >= b then a else b }
  function Min(a: real, b: real): real { if a <= b then a else b }

  /** Everything one step produces: one entry of each array the engines return. */
  datatype Flows = Flows(
    regInflow: real,  // regulated inflow used in the step
    release: real,    // regulated release after the clamp
    env: real,        // environmental compensation flow
    spill: real,      // spill over the capacity
    evap: real,       // evaporation volume
    next: real)       // storage at the start of the next step

  /** Surface area of the reservoir (km2); the engines fix it at 1. */
  const SurfaceArea: real := 1.0

  /** Water that can leave during the step without storage going below the
      minimum: s - s_min + I + Qreg_inf - E. */
  function Available(s: real, sMin: real, inflow: real, qin: real, evap: real): real {
    s - sMin + inflow + qin - evap
  }

  /**
    Environmental compensation flow. The source first sets it from the inflow
    alone and then overwrites it unconditionally, so only the test against the
    available water decides it: the full requirement when the water suffices,
    otherwise everything available, floored at zero.
   */
  function EnvFlow(envMin: real, avail: real): real {
    if envMin >= avail then Max(0.0, avail) else envMin
  }

  /** The environmental requirement has priority: it is met in full whenever
      the available water exceeds it, and otherwise takes all of it. */
  lemma EnvFlowPriority(envMin: real, avail: real)
    ensures avail > envMin ==> EnvFlow(envMin, avail) == envMin
    ensures avail <= envMin ==> EnvFlow(envMin, avail) == Max(0.0, avail)
    ensures EnvFlow(envMin, avail) <= Max(0.0, avail)
    ensures 0.0 <= envMin ==> 0.0 <= EnvFlow(envMin, avail) <= envMin
  {
  }

  /** The requested release cut down to what is left once the environmental flow is honoured. */
  function ClampRelease(request: real, avail: real, env: real): real {
    Min(request, Max(0.0, avail - env))
  }

  /** The release never exceeds the request nor the water left after the
      environmental flow; it is the request whenever that water suffices. */
  lemma ClampReleaseBounds(request: real, avail: real, env: real)
    ensures ClampRelease(request, avail, env) <= request
    ensures ClampRelease(request, avail, env) <= Max(0.0, avail - env)
    ensures 0.0 <= request ==> 0.0 <= ClampRelease(request, avail, env)
    ensures request <= avail - env ==> ClampRelease(request, avail, env) == request
    ensures 0.0 <= avail - env <= request ==> ClampRelease(request, avail, env) == avail - env
  {
  }

  /** Spill: the excess over the capacity once every other outflow is taken. */
  function Spill(wet: real, sMax: real): real {
    Max(0.0, wet - sMax)
  }

  /** What spills is exactly the excess: nothing when storage fits, otherwise
      what brings storage back to the capacity. */
  lemma SpillExact(wet: real, sMax: real)
    ensures 0.0 <= Spill(wet, sMax)
    ensures wet - Spill(wet, sMax) <= sMax
    ensures Spill(wet, sMax) > 0.0 ==> wet - Spill(wet, sMax) == sMax
    ensures wet <= sMax ==> Spill(wet, sMax) == 0.0
  {
  }

  /**
    One step from storage s, given the inflow, the regulated inflow qin, the
    requested release, the evaporation depth e, the environmental requirement
    and the storage bounds.
   */
  function Step(s: real, inflow: real, qin: real, request: real, e: real,
                envMin: real, sMin: real, sMax: real): Flows
  {
    var evap := e * SurfaceArea;
    var avail := Available(s, sMin, inflow, qin, evap);
    var env := EnvFlow(envMin, avail);
    var release := ClampRelease(request, avail, env);
    var wet := s + inflow + qin - release - env - evap;
    var spill := Spill(wet, sMax);
    Flows(qin, release, env, spill, evap, Max(sMin, wet - spill))
  }

  /** Storage stays within [s_min, s_max]; spill only at capacity; the release
      and environmental flow keep to their requests. */
  lemma StepBounds(s: real, inflow: real, qin: real, request: real, e: real,
                   envMin: real, sMin: real, sMax: real)
    ensures var f := Step(s, inflow, qin, request, e, envMin, sMin, sMax);
      && f.regInflow == qin && f.evap == e
      && 0.0 <= f.spill
      && (sMin <= sMax ==> sMin <= f.next <= sMax)
      && (sMin <= sMax && f.spill > 0.0 ==> f.next == sMax)
      && f.release <= request && (0.0 <= request ==> 0.0 <= f.release)
      && (Available(s, sMin, inflow, qin, e) > envMin ==> f.env == envMin)
      && (0.0 <= envMin ==> 0.0 <= f.env <= envMin)
  {
    var avail := Available(s, sMin, inflow, qin, e);
    var env := EnvFlow(envMin, avail);
    EnvFlowPriority(envMin, avail);
    ClampReleaseBounds(request, avail, env);
    SpillExact(s + inflow + qin - ClampRelease(request, avail, env) - env - e, sMax);
  }

  /** Water is conserved: when the available water is not negative, the new
      storage is the old one plus inflows minus every outflow. */
  lemma StepConservation(s: real, inflow: real, qin: real, request: real, e: real,
                         envMin: real, sMin: real, sMax: real)
    requires sMin <= sMax && 0.0 <= Available(s, sMin, inflow, qin, e)
    ensures var f := Step(s, inflow, qin, request, e, envMin, sMin, sMax);
      f.next == s + inflow + qin - f.release - f.env - f.evap - f.spill
  {
    var avail := Available(s, sMin, inflow, qin, e);
    var env := EnvFlow(envMin, avail);
    EnvFlowPriority(envMin, avail);
    ClampReleaseBounds(request, avail, env);
    SpillExact(s + inflow + qin - ClampRelease(request, avail, env) - env - e, sMax);
  }
}
