/**
  The single-trace `Res_sys_sim` of Submodules/Res_sys_sim.py, for the
  regulation branches that need no imported function: no regulated flow
  (`[]`) or a schedule array. It differs from the other engines in three
  ways: evaporation is ADDED to the water balance, the environmental flow
  has no floor at zero, and the release is cut only when the DEMAND exceeds
  the water left after the environmental flow. When no release schedule is
  given, the release array is the demand array itself, updated in place.
 */
module SubmodulesSim {
  import opened ReservoirStep

  /** One step from storage s. `gross` is `s - s_min + I + E + Qreg_inf`. */
  function Step(s: real, inflow: real, qin: real, request: real, demand: real, e: real,
                envReq: real, sMin: real, sMax: real): Flows
  {
    var evap := e * SurfaceArea;
    var gross := s - sMin + inflow + evap + qin;
    var env := if envReq >= gross then gross else envReq;
    var release := if demand >= gross - env then ClampRelease(request, gross, env) else request;
    var wet := s + inflow - release - env + evap + qin;
    var spill := Spill(wet, sMax);
    Flows(qin, release, env, spill, evap, Max(sMin, wet - spill))
  }

  /**
    The environmental flow is the requirement when the gross water exceeds
    it and all of that water otherwise (negative included); the release is
    the request unless the demand does not fit, and then it is cut to the
    water left; spill is never negative and storage ends within
    [s_min, s_max], full whenever something spills.
   */
  lemma StepBounds(s: real, inflow: real, qin: real, request: real, demand: real, e: real,
                   envReq: real, sMin: real, sMax: real)
    ensures var gross := s - sMin + inflow + e + qin;
      var f := Step(s, inflow, qin, request, demand, e, envReq, sMin, sMax);
      && f.regInflow == qin && f.evap == e
      && (envReq < gross ==> f.env == envReq)
      && (gross <= envReq ==> f.env == gross)
      && f.release <= request
      && (demand < gross - f.env ==> f.release == request)
      && (demand >= gross - f.env ==> f.release <= gross - f.env)
      && (demand >= gross - f.env ==> f.release == Min(request, gross - f.env))
      && 0.0 <= f.spill
      && (sMin <= sMax ==> sMin <= f.next <= sMax)
      && (0.0 < f.spill && sMin <= sMax ==> f.next == sMax)
  {
    var gross := s - sMin + inflow + e + qin;
    var env := if envReq >= gross then gross else envReq;
    ClampReleaseBounds(request, gross, env);
    var release := if demand >= gross - env then ClampRelease(request, gross, env) else request;
    SpillExact(s + inflow - release - env + e + qin, sMax);
  }

  /** When the release is the demand (no schedule), mass is conserved at every
      step, with evaporation counted as a gain. */
  lemma DemandReleaseConserves(s: real, inflow: real, qin: real, demand: real, e: real,
                               envReq: real, sMin: real, sMax: real)
    requires sMin <= sMax
    ensures var f := Step(s, inflow, qin, demand, demand, e, envReq, sMin, sMax);
      f.next == s + inflow + qin + f.evap - f.release - f.env - f.spill
  {
    var gross := s - sMin + inflow + e + qin;
    var env := if envReq >= gross then gross else envReq;
    assert 0.0 <= gross - env;
    ClampReleaseBounds(demand, gross, env);
    var release := if demand >= gross - env then ClampRelease(demand, gross, env) else demand;
    assert release <= gross - env;
    SpillExact(s + inflow - release - env + e + qin, sMax);
  }

  /** With a release schedule the cut is decided by the demand, so a scheduled
      release larger than the water available passes uncut when the demand is
      small; storage is then floored at s_min and the balance no longer holds. */
  lemma ScheduleBreaksBalance()
    ensures var f := Step(1.0, 0.0, 0.0, 5.0, 0.0, 0.0, 0.0, 0.0, 100.0);
      && f.release == 5.0 && f.env == 0.0 && f.spill == 0.0 && f.next == 0.0
      && f.next != 1.0 + 0.0 + 0.0 + f.evap - f.release - f.env - f.spill
  {
  }

  /** A forcing before `x + np.zeros(T)`: one number (for a schedule, a
      zero-dimensional array) or one value per step. */
  datatype Forcing = Scalar(v: real) | Series(a: seq<real>)

  /** The forcing broadcasts to length T. */
  predicate Fits(f: Forcing, steps: nat) {
    f.Series? ==> |f.a| == steps
  }

  /** `x + np.zeros(T)`. */
  function Expand(f: Forcing, steps: nat): (r: seq<real>)
    requires Fits(f, steps)
    ensures |r| == steps
    ensures forall t :: 0 <= t < steps ==> r[t] == (if f.Scalar? then f.v else f.a[t])
  {
    if f.Scalar? then seq(steps, t => f.v) else f.a
  }

  /** Broadcasting to length T is idempotent, and a constant gives the same
      series whether it comes as one number or as one value per step. */
  lemma ExpandAgrees(f: Forcing, steps: nat, v: real)
    requires Fits(f, steps)
    ensures Expand(Series(Expand(f, steps)), steps) == Expand(f, steps)
    ensures Expand(Scalar(v), steps) == Expand(Series(seq(steps, t => v)), steps)
  {
  }

  /**
    `Qreg['releases']` or `Qreg['inflows']`: `[]`, a schedule (a numpy
    array), or a value that is neither, such as a plain Python number. No
    branch takes the last one, so the flow keeps the zeros the `rel_inf`
    branch gave it.
   */
  datatype Schedule = Empty | Given(f: Forcing) | NotArray

  /** The inputs of the step loop once every series has length T. */
  datatype Inputs = Inputs(inflow: seq<real>, evap: seq<real>, sIni: real, sMin: real, sMax: real,
                           envReq: seq<real>, demand: seq<real>, request: seq<real>, qin: seq<real>)

  predicate WellFormed(x: Inputs) {
    |x.evap| == |x.inflow| && |x.envReq| == |x.inflow| && |x.demand| == |x.inflow|
    && |x.request| == |x.inflow| && |x.qin| == |x.inflow|
  }

  type Scenario = x: Inputs | WellFormed(x)
    witness Inputs([], [], 0.0, 0.0, 0.0, [], [], [], [])

  /** What the arguments of `Res_sys_sim` must satisfy for the broadcasts. */
  predicate Callable(inflow: seq<real>, e: seq<real>, envReq: Forcing, demand: Forcing,
                     releases: Schedule, inflows: Schedule) {
    |e| == |inflow| && Fits(envReq, |inflow|) && Fits(demand, |inflow|)
    && (releases.Given? ==> Fits(releases.f, |inflow|))
    && (inflows.Given? ==> Fits(inflows.f, |inflow|))
  }

  /** The series the loop reads: no release schedule means the demand is
      the release, no inflow schedule means zero regulated inflow. */
  function Configure(inflow: seq<real>, e: seq<real>, sIni: real, sMin: real, sMax: real,
                     envReq: Forcing, demand: Forcing, releases: Schedule, inflows: Schedule): (x: Scenario)
    requires Callable(inflow, e, envReq, demand, releases, inflows)
    ensures x.inflow == inflow && x.evap == e
    ensures releases.Empty? ==> x.request == x.demand
    ensures releases.NotArray? ==> forall t :: 0 <= t < |inflow| ==> x.request[t] == 0.0
    ensures !inflows.Given? ==> forall t :: 0 <= t < |inflow| ==> x.qin[t] == 0.0
  {
    var T := |inflow|;
    var dem := Expand(demand, T);
    Inputs(inflow, e, sIni, sMin, sMax, Expand(envReq, T), dem,
           match releases
           case Empty => dem
           case Given(f) => Expand(f, T)
           case NotArray => Expand(Scalar(0.0), T),
           if inflows.Given? then Expand(inflows.f, T) else Expand(Scalar(0.0), T))
  }

  function StepFrom(x: Scenario, t: nat, s: real): Flows
    requires t < |x.inflow|
  {
    Step(s, x.inflow[t], x.qin[t], x.request[t], x.demand[t], x.evap[t], x.envReq[t], x.sMin, x.sMax)
  }

  /** `s[t]`. */
  function StorageAt(x: Scenario, t: nat): real
    requires t <= |x.inflow|
  {
    if t == 0 then x.sIni else StepFrom(x, t - 1, StorageAt(x, t - 1)).next
  }

  /** Everything step t produces. */
  function FlowsAt(x: Scenario, t: nat): Flows
    requires t < |x.inflow|
  {
    StepFrom(x, t, StorageAt(x, t))
  }

  /** The entries one step writes (next storage, release, environmental flow, spill) are flows f. */
  predicate Holds(f: Flows, next: real, qr: real, en: real, sp: real) {
    next == f.next && qr == f.release && en == f.env && sp == f.spill
  }

  /** The first t steps are done. */
  predicate Done(x: Scenario, t: nat, col: seq<real>, qr: seq<real>, en: seq<real>, sp: seq<real>)
    requires t <= |x.inflow| < |col|
    requires |qr| == |en| == |sp| == |x.inflow|
  {
    && col[0] == x.sIni
    && forall u :: 0 <= u < t ==> Holds(StepFrom(x, u, col[u]), col[u + 1], qr[u], en[u], sp[u])
  }

  /** One more step done: the earlier entries were left alone and step t was written. */
  lemma DoneStep(x: Scenario, t: nat, col: seq<real>, qr: seq<real>, en: seq<real>, sp: seq<real>,
                 col': seq<real>, qr': seq<real>, en': seq<real>, sp': seq<real>)
    requires t < |x.inflow| && |col| == |col'| == |x.inflow| + 1
    requires |qr| == |en| == |sp| == |qr'| == |en'| == |sp'| == |x.inflow|
    requires Done(x, t, col, qr, en, sp)
    requires col'[..t + 1] == col[..t + 1]
    requires qr'[..t] == qr[..t] && en'[..t] == en[..t] && sp'[..t] == sp[..t]
    requires Holds(StepFrom(x, t, col'[t]), col'[t + 1], qr'[t], en'[t], sp'[t])
    ensures Done(x, t + 1, col', qr', en', sp')
  {
    forall u | 0 <= u < t
      ensures Holds(StepFrom(x, u, col'[u]), col'[u + 1], qr'[u], en'[u], sp'[u])
    {
      assert col'[..t + 1][u] == col[..t + 1][u] && col'[..t + 1][u + 1] == col[..t + 1][u + 1];
      assert qr'[..t][u] == qr[..t][u] && en'[..t][u] == en[..t][u] && sp'[..t][u] == sp[..t][u];
    }
    assert col'[..t + 1][0] == col[..t + 1][0];
  }

  /** `col` starts at s_0 and each entry is the next storage of the step before. */
  lemma {:induction false} DoneIsRun(x: Scenario, col: seq<real>, qr: seq<real>, en: seq<real>,
                                     sp: seq<real>, u: nat)
    requires |col| == |x.inflow| + 1 && |qr| == |en| == |sp| == |x.inflow|
    requires Done(x, |x.inflow|, col, qr, en, sp) && u <= |x.inflow|
    ensures col[u] == StorageAt(x, u)
    ensures u < |x.inflow| ==> Holds(FlowsAt(x, u), col[u + 1], qr[u], en[u], sp[u])
  {
    if u > 0 {
      DoneIsRun(x, col, qr, en, sp, u - 1);
      assert Holds(StepFrom(x, u - 1, col[u - 1]), col[u], qr[u - 1], en[u - 1], sp[u - 1]);
    }
  }

  /** Copies a series into a fresh array. */
  method FromSeq(a: seq<real>) returns (arr: array<real>)
    ensures fresh(arr) && arr[..] == a
  {
    arr := new real[|a|];
    var i := 0;
    while i < |a|
      invariant 0 <= i <= |a|
      invariant arr[..i] == a[..i]
    {
      arr[i] := a[i];
      i := i + 1;
    }
  }

  /**
    The arithmetic of step t from storage st in the source's statement order:
    the first environmental estimate (from the inflow alone) is overwritten
    by the test against the gross water; the release is cut only when the
    demand does not fit.
   */
  method StepValues(x: Scenario, t: nat, st: real, request: real, demand: real) returns (f: Flows)
    requires t < |x.inflow| && request == x.request[t] && demand == x.demand[t]
    ensures f == StepFrom(x, t, st)
  {
    var evap := x.evap[t] * SurfaceArea;
    var qin := x.qin[t];
    var env;
    if x.envReq[t] >= x.inflow[t] + qin {
      env := x.inflow[t] + qin;
    } else {
      env := x.envReq[t];
    }
    var gross := st - x.sMin + x.inflow[t] + evap + qin;
    if x.envReq[t] >= gross {
      env := gross;
    } else {
      env := x.envReq[t];
    }
    var release := request;
    if demand >= gross - env {
      release := Min(release, Max(0.0, gross - env));
    }
    var over := Max(0.0, st + x.inflow[t] - release - env + evap + qin - x.sMax);
    f := Flows(qin, release, env, over, evap, Max(x.sMin, st + x.inflow[t] - release - env + evap + qin - over));
  }

  /** Entry t of `a` is the only one that may differ from `old`. */
  twostate predicate OnlyAt(a: array<real>, t: int)
    reads a
  {
    forall u :: 0 <= u < a.Length && u != t ==> a[u] == old(a[u])
  }

  /** The arrays of the loop: the release array may be the demand array;
      every other pair is different. */
  predicate Layout(steps: nat, dem: array<real>, rel: array<real>,
                   env: array<real>, spill: array<real>, s: array<real>) {
    && dem != env && dem != spill && dem != s
    && rel != env && rel != spill && rel != s
    && env != spill && env != s && spill != s
    && dem.Length == steps && rel.Length == steps && env.Length == steps
    && spill.Length == steps && s.Length == steps + 1
  }

  /** Step t: the demand is read before the release, which may be the same
      array, is overwritten. */
  method RunStep(x: Scenario, t: nat, dem: array<real>, rel: array<real>,
                 env: array<real>, spill: array<real>, s: array<real>)
    requires t < |x.inflow| && Layout(|x.inflow|, dem, rel, env, spill, s)
    requires Done(x, t, s[..], rel[..], env[..], spill[..])
    requires dem[t] == x.demand[t] && rel[t] == x.request[t]
    modifies dem, rel, env, spill, s
    ensures Done(x, t + 1, s[..], rel[..], env[..], spill[..])
    ensures OnlyAt(dem, t) && OnlyAt(rel, t)
  {
    ghost var col, qr, en, sp := s[..], rel[..], env[..], spill[..];
    var f := StepValues(x, t, s[t], rel[t], dem[t]);
    rel[t], env[t], spill[t], s[t + 1] := f.release, f.env, f.spill, f.next;
    DoneStep(x, t, col, qr, en, sp, s[..], rel[..], env[..], spill[..]);
  }

  /**
    `Res_sys_sim` without imported functions: returns `(Qenv, Qspill,
    Qreg_rel, Qreg_inf, s)`, fresh arrays of length T (storage T + 1) that
    hold the flows of every step and the storage trajectory of the scenario
    the arguments configure.
   */
  method ResSysSim(inflow: seq<real>, e: seq<real>, sIni: real, sMin: real, sMax: real,
                   envReq: Forcing, demand: Forcing, releases: Schedule, inflows: Schedule)
    returns (env: array<real>, spill: array<real>, rel: array<real>, inf: array<real>, s: array<real>)
    requires Callable(inflow, e, envReq, demand, releases, inflows)
    ensures fresh(env) && fresh(spill) && fresh(rel) && fresh(inf) && fresh(s)
    ensures env.Length == spill.Length == rel.Length == inf.Length == |inflow| && s.Length == |inflow| + 1
    ensures var x := Configure(inflow, e, sIni, sMin, sMax, envReq, demand, releases, inflows);
      inf[..] == x.qin && Done(x, |inflow|, s[..], rel[..], env[..], spill[..])
  {
    var x := Configure(inflow, e, sIni, sMin, sMax, envReq, demand, releases, inflows);
    var T := |inflow|;
    var dem := FromSeq(x.demand);
    if releases.Empty? {
      rel := dem;
    } else {
      rel := FromSeq(x.request);
    }
    inf := FromSeq(x.qin);
    s := new real[T + 1];
    env := new real[T];
    spill := new real[T];
    s[0] := sIni;
    var t := 0;
    while t < T
      invariant 0 <= t <= T
      invariant Layout(T, dem, rel, env, spill, s) && inf != rel && inf != dem
      invariant Done(x, t, s[..], rel[..], env[..], spill[..]) && inf[..] == x.qin
      invariant forall u :: t <= u < T ==> dem[u] == x.demand[u] && rel[u] == x.request[u]
      modifies dem, rel, env, spill, s
    {
      RunStep(x, t, dem, rel, env, spill, s);
      t := t + 1;
    }
  }

  // ---------------------------------------------------------------------
  // Properties of a run
  // ---------------------------------------------------------------------

  /** After every step storage lies within [s_min, s_max] and spill is never negative. */
  lemma StorageWithinBounds(x: Scenario, t: nat)
    requires t < |x.inflow| && x.sMin <= x.sMax
    ensures x.sMin <= StorageAt(x, t + 1) <= x.sMax
    ensures 0.0 <= FlowsAt(x, t).spill
    ensures 0.0 < FlowsAt(x, t).spill ==> StorageAt(x, t + 1) == x.sMax
  {
    StepBounds(StorageAt(x, t), x.inflow[t], x.qin[t], x.request[t], x.demand[t], x.evap[t],
               x.envReq[t], x.sMin, x.sMax);
  }

  /** Net inflow of a step, evaporation counted as a gain. */
  function NetInflow(f: Flows, inflow: real): real {
    inflow + f.regInflow + f.evap - f.release - f.env - f.spill
  }

  /** Sum of the net inflows of the first t steps. */
  function TotalNetInflow(x: Scenario, t: nat): real
    requires t <= |x.inflow|
  {
    if t == 0 then 0.0 else TotalNetInflow(x, t - 1) + NetInflow(FlowsAt(x, t - 1), x.inflow[t - 1])
  }

  /** Without a release schedule storage is always s_0 plus the cumulative net inflow. */
  lemma {:induction false} CumulativeBalance(x: Scenario, t: nat)
    requires t <= |x.inflow| && x.sMin <= x.sMax && x.request == x.demand
    ensures StorageAt(x, t) == x.sIni + TotalNetInflow(x, t)
  {
    if t > 0 {
      CumulativeBalance(x, t - 1);
      DemandReleaseConserves(StorageAt(x, t - 1), x.inflow[t - 1], x.qin[t - 1], x.demand[t - 1],
                             x.evap[t - 1], x.envReq[t - 1], x.sMin, x.sMax);
    }
  }
}
