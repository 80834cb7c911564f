/**
  What the two iRONS `res_sys_sim` front ends share before and after the
  engine: broadcasting a forcing to the T x M ensemble shape
  (`x + np.zeros([T, M])`), turning a table into the array the engine
  overwrites, and one engine run whose six result arrays are returned together.
 */
module IronsRuns {
  import opened Wrappers
  import opened Tables
  import opened IronsEngine

  /** A forcing given to `res_sys_sim`: one number, one value per ensemble
      member (a 1-D array of length M), one value per step (a T x 1 array)
      or a full T x M array. */
  datatype Series = Scalar(v: real) | PerMember(row: seq<real>) | PerStep(col: seq<real>) | Full(a: Matrix)

  /** The forcing broadcasts to T x M. */
  predicate Broadcasts(x: Series, steps: nat, members: nat) {
    match x
    case Scalar(_) => true
    case PerMember(row) => |row| == members
    case PerStep(col) => |col| == steps
    case Full(a) => IsShape(a, steps, members)
  }

  /** Entry (t, m) of the broadcast forcing. */
  function ValueAt(x: Series, steps: nat, members: nat, t: nat, m: nat): real
    requires Broadcasts(x, steps, members) && t < steps && m < members
  {
    match x
    case Scalar(v) => v
    case PerMember(row) => row[m]
    case PerStep(col) => col[t]
    case Full(a) => a[t][m]
  }

  /** `x + np.zeros([T, M])`. */
  function Broadcast(x: Series, steps: nat, members: nat): (a: Matrix)
    requires Broadcasts(x, steps, members)
    ensures IsShape(a, steps, members)
    ensures forall t, m :: 0 <= t < steps && 0 <= m < members ==> a[t][m] == ValueAt(x, steps, members, t, m)
  {
    match x
    case Scalar(v) => Filled(steps, members, v)
    case PerMember(row) => seq(steps, t => row)
    case PerStep(col) => seq(steps, t requires 0 <= t < steps => seq(members, m => col[t]))
    case Full(a) => a
  }

  /**
    What broadcasting means for the ensemble: a full T x M array comes back
    unchanged, so adding `np.zeros([T, M])` a second time changes nothing;
    a per-member forcing is the same at every step and a per-step forcing the
    same for every member; and a constant gives the same array whichever of
    the four shapes carries it.
   */
  lemma BroadcastAgrees(x: Series, steps: nat, members: nat, v: real)
    requires Broadcasts(x, steps, members)
    ensures Broadcast(Full(Broadcast(x, steps, members)), steps, members) == Broadcast(x, steps, members)
    ensures x.PerMember? ==> forall t :: 0 <= t < steps ==> Broadcast(x, steps, members)[t] == x.row
    ensures x.PerStep? ==> forall t, m :: 0 <= t < steps && 0 <= m < members ==>
              Broadcast(x, steps, members)[t][m] == Broadcast(x, steps, members)[t][0]
    ensures var a := Broadcast(Scalar(v), steps, members);
      && a == Broadcast(PerMember(seq(members, m => v)), steps, members)
      && a == Broadcast(PerStep(seq(steps, t => v)), steps, members)
      && a == Broadcast(Full(Filled(steps, members, v)), steps, members)
  {
    var a := Broadcast(Scalar(v), steps, members);
    var b := Broadcast(PerMember(seq(members, m => v)), steps, members);
    var c := Broadcast(PerStep(seq(steps, t => v)), steps, members);
    forall t | 0 <= t < steps
      ensures a[t] == b[t] && a[t] == c[t]
    {
      assert |a[t]| == |b[t]| == |c[t]| == members;
    }
    if x.PerMember? {
      forall t | 0 <= t < steps
        ensures Broadcast(x, steps, members)[t] == x.row
      {
        assert |Broadcast(x, steps, members)[t]| == |x.row|;
      }
    }
  }

  /** The 1 x 1 array the front ends start each policy from ("no policy"; the
      source fills it with NaN, which is never read because it has one row). */
  const Placeholder: Matrix := [[0.0]]

  /** The array holds the table: same shape, same entries. */
  predicate Holds(arr: array2<real>, a: Matrix)
    reads arr
  {
    IsShape(a, arr.Length0, arr.Length1)
    && forall t, m :: 0 <= t < arr.Length0 && 0 <= m < arr.Length1 ==> arr[t, m] == a[t][m]
  }

  /** The table an array holds. */
  function Contents(arr: array2<real>): (a: Matrix)
    reads arr
    ensures Holds(arr, a)
  {
    seq(arr.Length0, t requires 0 <= t < arr.Length0 reads arr =>
      seq(arr.Length1, m requires 0 <= m < arr.Length1 reads arr => arr[t, m]))
  }

  /** Copies a T x M table into a fresh array. */
  method Materialise(a: Matrix, rows: nat, cols: nat) returns (arr: array2<real>)
    requires IsShape(a, rows, cols)
    ensures fresh(arr) && Shaped(arr, rows, cols) && Holds(arr, a)
  {
    arr := new real[rows, cols];
    var t := 0;
    while t < rows
      invariant 0 <= t <= rows
      invariant forall i, j :: 0 <= i < t && 0 <= j < cols ==> arr[i, j] == a[i][j]
    {
      var m := 0;
      while m < cols
        invariant 0 <= m <= cols
        invariant forall i, j :: 0 <= i < t && 0 <= j < cols ==> arr[i, j] == a[i][j]
        invariant forall j :: 0 <= j < m ==> arr[t, j] == a[t][j]
      {
        arr[t, m] := a[t][m];
        m := m + 1;
      }
      t := t + 1;
    }
  }

  /** The caller's arrays among the optional schedules. */
  function Owned(rel: Option<array2<real>>, inf: Option<array2<real>>): set<object> {
    (if rel.Some? then {rel.value} else {}) + (if inf.Some? then {inf.value} else {})
  }

  /** The tuple `(env, spill, Qreg_rel, Qreg_inf, s, E)` a run returns. */
  datatype Run = Run(env: array2<real>, spill: array2<real>, qregRel: array2<real>,
                     qregInf: array2<real>, s: array2<real>, evap: array2<real>)

  /** The run's arrays hold the storage trajectory and the flows of every step
      of every member of scenario x. */
  predicate Follows(x: Scenario, run: Run)
    reads run.env, run.spill, run.qregRel, run.qregInf, run.s, run.evap
  {
    var T, M := x.drv.steps, x.drv.members;
    && Shaped(run.env, T, M) && Shaped(run.spill, T, M) && Shaped(run.qregRel, T, M)
    && Shaped(run.qregInf, T, M) && Shaped(run.evap, T, M) && Shaped(run.s, T + 1, M)
    && (forall t, m :: 0 <= t <= T && 0 <= m < M ==> run.s[t, m] == StorageAt(x, m, t))
    && (forall t, m :: 0 <= t < T && 0 <= m < M ==>
          StepWritten(FlowsAt(x, m, t), t, m, run.qregInf, run.qregRel, run.env, run.spill, run.evap))
  }

  /**
    `mass_bal_func` / `Mass_bal_func` on the arrays the front end prepared
    from scenario x. A release or inflow schedule is the caller's own array
    (`Qreg_rel = Qreg['releases']['input']`): the engine overwrites it in
    place and returns that very array. Without a schedule the front end
    starts from an array of its own (the broadcast demand, or zeros).
   */
  method Simulate(x: Scenario, relSchedule: Option<array2<real>>, infSchedule: Option<array2<real>>)
    returns (run: Run)
    requires relSchedule.Some? ==> Shaped(relSchedule.value, x.drv.steps, x.drv.members)
                                   && Holds(relSchedule.value, x.drv.request)
    requires infSchedule.Some? ==> Shaped(infSchedule.value, x.drv.steps, x.drv.members)
                                   && Holds(infSchedule.value, x.drv.qin)
    requires relSchedule.Some? && infSchedule.Some? ==> relSchedule.value != infSchedule.value
    modifies Owned(relSchedule, infSchedule)
    ensures Follows(x, run)
    ensures fresh(run.env) && fresh(run.spill) && fresh(run.s) && fresh(run.evap)
    ensures if relSchedule.Some? then run.qregRel == relSchedule.value else fresh(run.qregRel)
    ensures if infSchedule.Some? then run.qregInf == infSchedule.value else fresh(run.qregInf)
  {
    var qregInf, qregRel;
    if infSchedule.Some? {
      qregInf := infSchedule.value;
    } else {
      qregInf := Materialise(x.drv.qin, x.drv.steps, x.drv.members);
    }
    if relSchedule.Some? {
      qregRel := relSchedule.value;
    } else {
      qregRel := Materialise(x.drv.request, x.drv.steps, x.drv.members);
    }
    var env, spill, s, evap := MassBalance(x, qregInf, qregRel);
    run := Run(env, spill, qregRel, qregInf, s, evap);
  }
}
