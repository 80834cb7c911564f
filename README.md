# iRONS reservoir operations in Dafny

iRONS (interactive Reservoir Operation Notebooks and Software) simulates a
water-supply reservoir step by step. In each step it:

- takes the natural inflow, the evaporation depth, the environmental-flow
  requirement and the demand;
- optionally looks up a regulated inflow or release in an operating policy,
  tabulated against the storage fraction `s / s_max`;
- allocates the available water in a fixed order: the environmental flow
  first, then the release, then the spill above capacity;
- updates the storage, floored at the dead storage `s_min`.

This project models that core and proves what it guarantees:

- the four divergent copies of the mass-balance recurrence;
- the two `res_sys_sim` front ends, which prepare policies and schedules;
- the piecewise-linear operating policies, built from control points;
- the seasonal rule curves, resampled onto the 366 days of the year;
- the two data kernels: daily-to-weekly aggregation and
  cumulative-to-incremental differencing.

Modules, one or more per source file:

| module | file | models |
|---|---|---|
| `Wrappers`, `Tables` | wrappers.dfy, tables.dfy | `Option`/`Result`; tables as row sequences |
| `Interpolation` | interp.dfy | `numpy.interp` and the 101-point storage-fraction grid `k/100` |
| `ReservoirStep` | reservoir_step.dfy | one step of the iRONS engines (environmental flow, release clamp with zero floor, spill, storage) |
| `IronsEngine` | irons_engine.dfy | `mass_bal_func` (iRONS/Software) and `Mass_bal_func` (iRONS/Functions): the T x M ensemble loops, in place on 2-D arrays |
| `IronsRuns` | irons_runs.dfy | broadcasting of forcings to T x M, one engine run |
| `SoftwareSim` | software_sim.dfy | `res_sys_sim` of iRONS/Software: the `Qreg` dispatch (`releases`, `inflows`, `rel_inf`) |
| `FunctionsSim` | functions_sim.dfy | `Res_sys_sim` of iRONS/Functions: tabulating operating policies and rule curves |
| `ToolboxSim` | toolbox_sim.dfy | the 1-D `Mass_bal_func` of the Toolbox (release clamp without zero floor) |
| `SubmodulesSim` | submodules_sim.dfy | the 1-D `Res_sys_sim` of Submodules (evaporation added, conditional release cut) |
| `PiecewisePolicy` | piecewise_policy.dfy | `op_piecewiselin_1res` and `policy_function`: suffix-minimum repair and evaluation |
| `PointPolicies` | point_policies.dfy | `three_points_policy`, `four_points_policy`, `five_points_policy` |
| `RuleCurves` | rule_curves.dfy | `rule_curve` (Software), `curve` and `rule_curve` (Functions) |
| `WeeklyData` | weekly_data.dfy | `day2week` |
| `Cumulative` | cumulative.dfy | `cum2inst` (both copies) |

How the model is built:

- **Engines.** Each engine's step is a function over `real`. The storage
  trajectory of a run is a recursive function of the inputs (`StorageAt`).
  The engine itself is a method that fills arrays in place. Its loop
  invariants tie every written entry to that trajectory.
- **State-changing code.** The source's in-place builders are methods with
  loops over arrays: policy tables, rule-curve tables, the repair loop,
  weekly sums and differencing. Each is proved against a specification
  function, and the properties are proved as lemmas about that function.
- **Absent policies.** A policy that is absent (NaN in the source) is an
  `Option`, or the 1 x 1 placeholder that the source never reads.
- **Dates.** Dates are integers: day-of-year values or day numbers.

## Model

| member | source | states |
|---|---|---|
| Interpolation.GridShape | iRONS/Software/res_sys_sim.py:205-206 | the storage-fraction grid is strictly increasing, runs from 0 to 1 and stays in [0, 1] |
| Interpolation.Interp | iRONS/Functions/Reservoir_operating_policy/Operating_policy.py:25 | numpy.interp gives the first value below the first knot and the last value at or beyond the last knot |
| Interpolation.InterpWithin | iRONS/Software/res_sys_sim.py:136-143 | an interpolated value never leaves the range [lo, hi] of the tabulated values |
| Interpolation.InterpMonotone | iRONS/Software/res_sys_sim.py:136-143 | interpolating non-decreasing values is non-decreasing in the argument |
| Interpolation.InterpAtKnot | iRONS/Functions/Reservoir_operating_policy/Operating_policy.py:25 | with strictly increasing knots, interpolation passes through every control point |
| Interpolation.GridKnot | iRONS/Functions/Reservoir_system_simulation/Res_sys_sim.py:199-200 | looking a table up on the grid at k/100 returns its entry k |
| Interpolation.InterpScale | iRONS/Toolbox/Reservoir_operating_policy/Operating_policy_functions.py:22 | `interp(s, si, ui) * u_mean` equals interpolation of the scaled knots |
| ReservoirStep.EnvFlowPriority | iRONS/Software/res_sys_sim.py:156-165 | the first environmental estimate is overwritten: env is env_min when the available water A exceeds it, else max(0, A); in [0, env_min] for env_min >= 0 |
| ReservoirStep.ClampReleaseBounds | iRONS/Software/res_sys_sim.py:168 | the release is at most the request and at most max(0, A - env); it is >= 0 for a request >= 0; it is the full request when A - env covers it, and exactly A - env when 0 <= A - env <= request |
| ReservoirStep.SpillExact | iRONS/Software/res_sys_sim.py:170 | spill is never negative, leaves at most s_max, leaves exactly s_max when positive, and is 0 when the water fits |
| ReservoirStep.StepBounds | iRONS/Software/res_sys_sim.py:151-172 | given s_min <= s_max: the next storage is in [s_min, s_max]; spill >= 0, and full when positive; E = e (area 1) |
| ReservoirStep.StepConservation | iRONS/Software/res_sys_sim.py:168-172 | when A >= 0, next storage = s + I + Qreg_inf - release - env - E - spill exactly |
| IronsEngine.StepValues | iRONS/Software/res_sys_sim.py:145-172 | the step computed in the source's statement order (first env estimate included) is the step `StepFrom` defines |
| IronsEngine.RunStep | iRONS/Software/res_sys_sim.py:127-172 | step t of member m writes its flows to entry [t, m] of the step arrays and its next storage to s[t+1, m]; every other entry is unchanged |
| IronsEngine.RunMember | iRONS/Software/res_sys_sim.py:125-172 | after member m's time loop, column m of s is its storage trajectory from s_ini and every step's flows are written; other columns are unchanged |
| IronsEngine.MassBalance | iRONS/Software/res_sys_sim.py:105-174 | `mass_bal_func`: fresh T x M env, spill, E and a (T+1) x M s with s[0, m] = s_ini; every member's trajectory and flows are written; the regulated inflow and release arrays are overwritten in place |
| IronsEngine.StorageWithinBounds | iRONS/Software/res_sys_sim.py:170-172 | after every step of every member, s_min <= s[t+1] <= s_max; spill >= 0, and storage is exactly s_max when spill > 0 |
| IronsEngine.EnvironmentalFlowRule | iRONS/Software/res_sys_sim.py:156-165 | in a run, env = env_min when env_min < A, else max(0, A); so 0 <= env <= env_min when env_min >= 0 |
| IronsEngine.ReleaseRule | iRONS/Software/res_sys_sim.py:168 | in a run, the release is at most the scheduled or looked-up request; it is >= 0 for a request >= 0; it is the full request when A - env covers it |
| IronsEngine.StepBalance | iRONS/Software/res_sys_sim.py:168-172 | in a run, a step with A >= 0 conserves mass exactly |
| IronsEngine.CumulativeBalance | iRONS/Software/res_sys_sim.py:121-172 | over steps that never start with A < 0, storage is s_ini plus the sum of the net inflows |
| IronsEngine.ReleaseLookupWithin | iRONS/Software/res_sys_sim.py:136-143 | a looked-up release stays within the range of the policy's values |
| IronsEngine.ReleaseLookupMonotone | iRONS/Software/res_sys_sim.py:138-143 | with a rising policy column, a fuller reservoir never gets a smaller looked-up release |
| IronsEngine.RepeatedColumnsAsStatic | iRONS/Functions/Reservoir_system_simulation/Res_sys_sim.py:113-120 | a 2-D policy read in column t at step t behaves like the 1-D policy when all columns are equal |
| IronsEngine.UnregulatedStep | iRONS/Software/res_sys_sim.py:127-143 | without a policy longer than one row nothing is looked up; the step uses the scheduled flows |
| IronsEngine.TestStep | iRONS/Software/test_functions/test_res_sys_sim.py:20-38 | each step of the test run is the step from the current storage with inflow I, e 1, demand 9, env_min 2, bounds [5, 100] |
| IronsEngine.DrawdownStep | iRONS/Software/test_functions/test_res_sys_sim.py:43-54 | with inflow 10, storage falls by 2 down to 5; the release is min(9, storage + 2) and nothing spills |
| IronsEngine.FillStep | iRONS/Software/test_functions/test_res_sys_sim.py:57-63 | with inflow 50, storage rises by 38 up to 100; the excess spills |
| IronsEngine.DrawdownStorage | iRONS/Software/test_functions/test_res_sys_sim.py:50-54 | storage after t weeks of inflow 10 is max(5, 20 - 2t) |
| IronsEngine.FillStorage | iRONS/Software/test_functions/test_res_sys_sim.py:57-63 | storage after t weeks of inflow 50 is min(100, 20 + 38t) |
| IronsEngine.DrawdownRelease | iRONS/Software/test_functions/test_res_sys_sim.py:43-47 | the release in week t of inflow 10 is min(9, max(5, 20 - 2t) + 2) |
| IronsEngine.DrawdownVector | iRONS/Software/test_functions/test_res_sys_sim.py:43-54 | storage [20,18,16,14,12,10,8,6,5,5,5] and release [9,9,9,9,9,9,9,8,7,7] |
| IronsEngine.SpillVector | iRONS/Software/test_functions/test_res_sys_sim.py:57-63 | with inflow 50, spill [0,0,34,38,38,38,38,38,38,38] |
| IronsRuns.BroadcastAgrees | iRONS/Software/res_sys_sim.py:198-200 | adding `np.zeros([T, M])` a second time changes nothing; a per-member forcing is the same at every step and a per-step (T x 1) forcing the same for every member; a constant broadcasts to the same array from all four shapes |
| IronsRuns.Simulate | iRONS/Software/res_sys_sim.py:252-261 | one engine run: a release or inflow schedule is the caller's array, overwritten in place and returned; without one the front end's own array is used; the six returned arrays follow the scenario's trajectory and flows |
| SoftwareSim.Configure | iRONS/Software/res_sys_sim.py:193-250 | the inputs `res_sys_sim` hands to `mass_bal_func`: T x M regulated flows and environmental requirement, the grid, and the reservoir bounds |
| SoftwareSim.RelInfPolicyKeepsReleaseIndex | iRONS/Software/res_sys_sim.py:220-223 | a static `rel_inf` policy (:241-244) keeps the index a variable `releases` policy set: with a 101-row table that has a column for every index, the run goes ahead and step t reads both flows in column `index[t]` |
| SoftwareSim.ResSysSim | iRONS/Software/res_sys_sim.py:177-261 | fails exactly when the policy tables do not fit the run (a release index outside the policy's columns included, see "## Left out"), leaving the schedules untouched; otherwise returns the configured scenario's run, in the caller's schedule arrays where a schedule is given (:216, :229) and in new arrays elsewhere |
| SoftwareSim.ReleasesDefaultToDemand | iRONS/Software/res_sys_sim.py:213-214 | an empty `releases` entry (no `rel_inf` policy) makes the release request the broadcast demand, with no lookup |
| SoftwareSim.InflowsDefaultToZero | iRONS/Software/res_sys_sim.py:226-227 | an empty `inflows` entry (no `rel_inf` policy) gives zero regulated inflow at every step |
| SoftwareSim.SharedPolicyLookups | iRONS/Software/res_sys_sim.py:239-250 | a `rel_inf` policy becomes both policies; inflow and release lookups agree at every step and storage |
| SoftwareSim.InflowReadsReleaseIndex | iRONS/Software/res_sys_sim.py:127-131 | a multi-column inflow policy is read in column `policy_rel_idx[t]` of the release index |
| SoftwareSim.InflowIndexIgnored | iRONS/Software/res_sys_sim.py:233-236 | a variable inflow policy configures exactly what the static policy with the same table does |
| SoftwareSim.RelInfScheduleIgnored | iRONS/Software/res_sys_sim.py:239-241 | a `rel_inf` entry that is not a policy changes nothing |
| SoftwareSim.SoftwareTestRun | iRONS/Software/test_functions/test_res_sys_sim.py:20-38 | the test's inputs with an empty `Qreg` configure the engine's test scenario |
| FunctionsSim.DayParam | iRONS/Functions/Reservoir_system_simulation/Res_sys_sim.py:209-213 | `param` of a day has one row per control point; its column 0 is column `yday` of `s_yday` and its column 1 column `yday` of `r_yday` |
| FunctionsSim.RuleColumn | iRONS/Functions/Reservoir_system_simulation/Res_sys_sim.py:214-215 | a rule-curve column has one entry per grid point: entry i is the band function, with the day's `param`, at grid point i |
| FunctionsSim.RuleCurveTable | iRONS/Functions/Reservoir_system_simulation/Res_sys_sim.py:207-215 | the rule-curve table exists (101 x T) exactly when every step's day of year is a column of both day tables |
| FunctionsSim.TabulatePolicy | iRONS/Functions/Reservoir_system_simulation/Res_sys_sim.py:197-200 | the element-by-element loop yields `PolicyTable`: entry i is the policy at i/100 |
| FunctionsSim.TabulateRuleCurve | iRONS/Functions/Reservoir_system_simulation/Res_sys_sim.py:207-215 | the nested loops yield `RuleCurveTable`; entry [i, j] is the band function at i/100 with the parameters of day `dayofyear(date[j])`, used directly as a column index |
| FunctionsSim.Configure | iRONS/Functions/Reservoir_system_simulation/Res_sys_sim.py:170-245 | the inputs `Res_sys_sim` hands to the engine, with the reservoir bounds and a per-step lookup |
| FunctionsSim.BuildReleasePolicy | iRONS/Functions/Reservoir_system_simulation/Res_sys_sim.py:187-215 | `policy_rel` built by the source's loops is the `ReleasePolicy` specification |
| FunctionsSim.BuildInflowPolicy | iRONS/Functions/Reservoir_system_simulation/Res_sys_sim.py:217-245 | `policy_inf` built by the source's loops is the `InflowPolicy` specification |
| FunctionsSim.BuildInputs | iRONS/Functions/Reservoir_system_simulation/Res_sys_sim.py:170-245 | broadcasting the forcings and building both policy tables element by element yields exactly the configured inputs, or the same error |
| FunctionsSim.ResSysSim | iRONS/Functions/Reservoir_system_simulation/Res_sys_sim.py:154-273 | fails exactly when configuration fails or the tables do not fit, leaving the schedules untouched; otherwise returns the configured scenario's run, in the caller's schedule arrays where a schedule is given (:191, :221) and in new arrays elsewhere |
| FunctionsSim.TablesFitEngine | iRONS/Functions/Reservoir_system_simulation/Res_sys_sim.py:197-245 | the tables the front end builds always fit the engine; the one exception is a lookup with s_max = 0 |
| FunctionsSim.InflowRuleCurveReadsReleases | iRONS/Functions/Reservoir_system_simulation/Res_sys_sim.py:231-235 | an inflow rule curve fails unless `releases` is a rule curve; when it works, the inflow policy is the release policy |
| FunctionsSim.RuleCurveStepLookup | iRONS/Functions/Reservoir_system_simulation/Res_sys_sim.py:210-215 | step t's release is looked up in the grid tabulation of the band function for day `ydays[t]` |
| FunctionsSim.PolicyLookupAtGrid | iRONS/Functions/Reservoir_system_simulation/Res_sys_sim.py:197-200 | at a grid storage fraction k/100, the looked-up release is the caller's policy function there |
| FunctionsSim.FunctionsTestRun | iRONS/Functions/test_functions/test_Res_sys_sim.py:20-35 | the test's inputs with an empty `Qreg` configure the engine's test scenario |
| ToolboxSim.CutReleaseBounds | Toolbox/Reservoir_system_simulation/Res_sys_sim.py:65 | the release is at most the request and at most A - env; it is the request when that fits, else exactly A - env, even when negative |
| ToolboxSim.StepBounds | Toolbox/Reservoir_system_simulation/Res_sys_sim.py:44-69 | given s_min <= s_max: the next storage is in [s_min, s_max]; spill >= 0, and full when positive; E = e |
| ToolboxSim.StepConservation | Toolbox/Reservoir_system_simulation/Res_sys_sim.py:65-69 | every step conserves mass exactly, with no condition on A |
| ToolboxSim.NegativeRelease | Toolbox/Reservoir_system_simulation/Res_sys_sim.py:59-65 | with A < 0 and env_min >= 0: env is 0 and the release is negative |
| ToolboxSim.StepValues | Toolbox/Reservoir_system_simulation/Res_sys_sim.py:38-69 | the step in the source's statement order is the step `StepFrom` defines |
| ToolboxSim.RunStep | Toolbox/Reservoir_system_simulation/Res_sys_sim.py:36-69 | step t writes entry t of each step array and s[t+1]; earlier entries are kept |
| ToolboxSim.MassBalFunc | Toolbox/Reservoir_system_simulation/Res_sys_sim.py:12-71 | fresh env, spill and E of length T and s of length T+1; after the loop all T steps are done, and the caller's Qreg arrays are overwritten |
| ToolboxSim.DoneIsRun | Toolbox/Reservoir_system_simulation/Res_sys_sim.py:33-69 | arrays that complete all steps are the storage trajectory from s_0 and the scenario's flows |
| ToolboxSim.StorageWithinBounds | Toolbox/Reservoir_system_simulation/Res_sys_sim.py:67-69 | after every step, s_min <= s[t+1] <= s_max; spill >= 0, and full when positive |
| ToolboxSim.LookupWhenPresent | Toolbox/Reservoir_system_simulation/Res_sys_sim.py:38-42 | a policy that is present (first entry not NaN) replaces the scheduled flow: the regulated inflow is its value, and the release is min(policy value, water left after the environmental flow), so the full policy value when the water suffices; without a policy the scheduled values are used |
| ToolboxSim.CumulativeBalance | Toolbox/Reservoir_system_simulation/Res_sys_sim.py:65-69 | storage is always s_0 plus the cumulative net inflow |
| SubmodulesSim.StepBounds | Submodules/Res_sys_sim.py:80-98 | with gross B = s - s_min + I + E + Qreg_inf: env is Qreq_env when below B, else B (no floor); the release is the request unless the demand does not fit, and then min(request, max(0, B - env)), where B - env is never negative; spill >= 0; storage in [s_min, s_max], full when spilling |
| SubmodulesSim.DemandReleaseConserves | Submodules/Res_sys_sim.py:93-98 | when the release is the demand, every step conserves mass exactly, with evaporation as a gain and no condition on B |
| SubmodulesSim.ScheduleBreaksBalance | Submodules/Res_sys_sim.py:93-98 | a scheduled release of 5 from storage 1 with demand 0 passes uncut; the floor at s_min then breaks the balance |
| SubmodulesSim.ExpandAgrees | Submodules/Res_sys_sim.py:23-25 | adding `np.zeros(T)` a second time changes nothing, and a constant gives the same series as one number or as one value per step |
| SubmodulesSim.Configure | Submodules/Res_sys_sim.py:35-57 | no release schedule makes the release the demand; a value that is neither `[]` nor an array (a plain number) is taken by no branch and leaves zero release; any inflow entry other than an array gives zero regulated inflow |
| SubmodulesSim.StepValues | Submodules/Res_sys_sim.py:78-98 | the step in the source's statement order is the step `StepFrom` defines |
| SubmodulesSim.RunStep | Submodules/Res_sys_sim.py:64-98 | step t reads the demand before the possibly aliased release array is written, then writes entry t and s[t+1] |
| SubmodulesSim.ResSysSim | Submodules/Res_sys_sim.py:11-101 | returns fresh arrays of length T (storage T+1) holding the configured scenario's flows and trajectory from s_0 |
| SubmodulesSim.DoneIsRun | Submodules/Res_sys_sim.py:62-98 | arrays that complete all steps are the storage trajectory and the scenario's flows |
| SubmodulesSim.StorageWithinBounds | Submodules/Res_sys_sim.py:96-98 | after every step, s_min <= s[t+1] <= s_max; spill >= 0, and full when positive |
| SubmodulesSim.CumulativeBalance | Submodules/Res_sys_sim.py:44-45 | without a release schedule, storage is always s_0 plus the cumulative net inflow (evaporation a gain) |
| PiecewisePolicy.MinOfBounds | iRONS/Software/operating_policy.py:57-58 | `np.min` is at most every entry and is one of them |
| PiecewisePolicy.SuffixMinsBound | iRONS/Software/operating_policy.py:56-58 | si[i]/ui[i] is at most every coordinate from point i on and equals one of them |
| PiecewisePolicy.SuffixMinsShape | iRONS/Software/operating_policy.py:56-58 | suffix minima never decrease; they start at the overall minimum and end at the last entry |
| PiecewisePolicy.SuffixMinsIdempotent | iRONS/Software/operating_policy.py:56-58 | the repair leaves a non-decreasing list unchanged, and repairing twice equals repairing once |
| PiecewisePolicy.StorageKnotsSorted | iRONS/Software/operating_policy.py:56-59 | with two or more points, storages >= 0 (after the first) and the last <= 1, si never decreases and runs from 0 to 1 |
| PiecewisePolicy.ReleaseKnotsShape | iRONS/Software/operating_policy.py:56-58 | ui never decreases, starts at the smallest release and ends at the last point's release |
| PiecewisePolicy.Repair | iRONS/Software/operating_policy.py:54-59 | the loop and the end overwrites yield the suffix-minimum knots, with si[-1] = 1, and si[0] = 0 for two or more points (a single point gives si = [1]) |
| PiecewisePolicy.PolicyGridShape | iRONS/Software/operating_policy.py:68-72 | the tabulated policy has 101 entries, never decreases, stays between the smallest and the last release, ends at the last release and starts at ui[0] |
| PiecewisePolicy.OpPiecewiseLin | iRONS/Software/operating_policy.py:64-74 | fails exactly when a storage is given (the unassigned `u` is returned); else a fresh 101 x 1 table u[k, 0] = interp(k/100, si, ui) |
| PiecewisePolicy.PolicyFunction | iRONS/Functions/Reservoir_operating_policy/Operating_policy.py:12-31 | the grid tabulation without an argument; with one, one value: ui[0] below 0 and the last release at or above 1 |
| PointPolicies.EvalAtWithin | iRONS/Toolbox/Reservoir_operating_policy/Operating_policy_functions.py:20-26 | with u_mean >= 0, the value lies between lo and hi times u_mean when every release knot does |
| PointPolicies.EvalAtMonotone | iRONS/Toolbox/Reservoir_operating_policy/Operating_policy_functions.py:20-26 | with u_mean >= 0 and sorted release knots, the policy never decreases with storage |
| PointPolicies.EvaluateEnds | iRONS/Toolbox/Reservoir_operating_policy/Operating_policy_functions.py:20-22 | one storage gives one value: the first release knot (times u_mean) below the first storage knot, the last one at or beyond the last |
| PointPolicies.EvaluateShape | iRONS/Toolbox/Reservoir_operating_policy/Operating_policy_functions.py:20-26 | 1 or 101 values, bounded by the release knots times u_mean, non-decreasing on the grid for sorted releases |
| PointPolicies.ThreeKnotsShape | iRONS/Toolbox/Reservoir_operating_policy/Operating_policy_functions.py:14-19 | the middle storage is clipped to the last; ui never decreases, from the smallest release to the last; si is sorted iff the first storage is at most the others |
| PointPolicies.ThreePointsMonotone | iRONS/Toolbox/Reservoir_operating_policy/Operating_policy_functions.py:12-28 | with u_mean >= 0, the three-point grid policy never decreases |
| PointPolicies.ThreePointsWithin | iRONS/Toolbox/Reservoir_operating_policy/Operating_policy_functions.py:12-28 | with u_mean >= 0, values lie between the smallest and the last release, times u_mean |
| PointPolicies.ThreePointsEnds | iRONS/Toolbox/Reservoir_operating_policy/Operating_policy_functions.py:14-22 | below x0's storage: min(x0.u, x1.u, x2.u) * u_mean; from x2's storage on: x2.u * u_mean |
| PointPolicies.FourKnotsShape | iRONS/Toolbox/Reservoir_operating_policy/Operating_policy_functions.py:32-39 | the middle nodes are clipped against x3 only; x3 is kept; the first release is min(x0.u, x1.u, x3.u), whatever x2 is |
| PointPolicies.FourKnotsUnordered | iRONS/Toolbox/Reservoir_operating_policy/Operating_policy_functions.py:32-35 | the middle nodes are not clipped against each other, so the storage knots can come out unsorted |
| PointPolicies.FourKnotsSorted | iRONS/Toolbox/Reservoir_operating_policy/Operating_policy_functions.py:32-39 | the knots of ordered points are sorted |
| PointPolicies.FourPointsWithin | iRONS/Toolbox/Reservoir_operating_policy/Operating_policy_functions.py:30-48 | 1 or 101 values, between any lower bound of the releases and x3.u, times u_mean |
| PointPolicies.FourPointsEnds | iRONS/Toolbox/Reservoir_operating_policy/Operating_policy_functions.py:36-42 | below x0's storage: min(x0.u, x1.u, x3.u) * u_mean; from x3's storage on: x3.u * u_mean |
| PointPolicies.FourPointsGridEnds | Toolbox/Reservoir_system_simulation/Res_sys_sim.py:171-189 | with x0 at 0, x3 at 1 and x1's storage above 0, the grid starts at min(u0, x1.u, u1) * u_mean and ends at u1 * u_mean |
| PointPolicies.FiveKnotsShape | iRONS/Toolbox/Reservoir_operating_policy/Operating_policy_functions.py:52-61 | the middle nodes are clipped against x4; the fourth release knot repeats the third; x3's release never reaches the knots |
| PointPolicies.FiveKnotsSorted | iRONS/Toolbox/Reservoir_operating_policy/Operating_policy_functions.py:52-61 | the knots of ordered points are sorted |
| PointPolicies.FivePointsEnds | iRONS/Toolbox/Reservoir_operating_policy/Operating_policy_functions.py:52-64 | below x0's storage: min(x0.u, x1.u, x4.u) * u_mean; from x4's storage on: x4.u * u_mean |
| PointPolicies.FiveIgnoresPoint3Release | iRONS/Toolbox/Reservoir_operating_policy/Operating_policy_functions.py:57-61 | changing x3's release never changes the five-point policy |
| RuleCurves.KnotsShape | iRONS/Software/operating_rule_curves.py:29-41 | the axis starts at d0 and ends at d0 + 366; every other point sits at its day or 366 later, inside [d0, d0 + 366) |
| RuleCurves.Rotate | iRONS/Software/operating_rule_curves.py:29-41 | the loop fills `ydayi` with those positions |
| RuleCurves.YearOrderIsPermutation | iRONS/Software/operating_rule_curves.py:43-52 | `yday` lists every day 1..366 exactly once, each at the position `np.where` finds |
| RuleCurves.YdateAtPosition | iRONS/Software/operating_rule_curves.py:48-52 | reading `s_ydate` at the position of day d gives the curve at day d |
| RuleCurves.FirstDayValue | iRONS/Software/operating_rule_curves.py:29-52 | column d0 - 1 and `s_ydate[0]` hold the first control value |
| RuleCurves.YdateLast | iRONS/Functions/Reservoir_operating_policy/Operating_rule_curves.py:37-40 | `s_ydate` has 367 entries and ends at the last control value |
| RuleCurves.DayValueWithin | iRONS/Software/operating_rule_curves.py:48-52 | a resampled curve never leaves the range of its control values |
| RuleCurves.ReadBackRow | iRONS/Software/operating_rule_curves.py:50-52 | row j gets, in column d - 1, the curve at day d; other rows are kept |
| RuleCurves.Resample | iRONS/Software/operating_rule_curves.py:42-52 | a fresh table with one row per curve and 366 columns; column d - 1 of row j is curve j at day d |
| RuleCurves.SoftwareRuleCurve | iRONS/Software/operating_rule_curves.py:14-91 | `s_yday` and `r_yday` are curves and rules resampled independently by the same procedure: shapes [curves, 366] and [rules, 366] |
| RuleCurves.Curve | iRONS/Functions/Reservoir_operating_policy/Operating_rule_curves.py:14-50 | 367 interpolated values on days d0..d0 + 366, and 366 day columns each holding the curve at its day |
| RuleCurves.BandSelection | iRONS/Functions/Reservoir_operating_policy/Operating_rule_curves.py:60-65 | the band is release[j + 1] for the last threshold j that x exceeds, or release[0] when x exceeds none |
| RuleCurves.BandMonotone | iRONS/Functions/Reservoir_operating_policy/Operating_rule_curves.py:60-65 | with rising releases, the band release never decreases with storage, whatever the order of the thresholds |
| RuleCurves.BandAtMost | iRONS/Functions/Reservoir_operating_policy/Operating_rule_curves.py:62-65 | after n thresholds the band release is at most release[n] |
| RuleCurves.BandRow | iRONS/Functions/Reservoir_operating_policy/Operating_rule_curves.py:61-65 | row t's entry i is the band release at i/100; other rows are kept |
| RuleCurves.FunctionsRuleCurve | iRONS/Functions/Reservoir_operating_policy/Operating_rule_curves.py:52-67 | a fresh T x 101 table whose rows are all equal: the band release at i/100, thresholded by day-column 0 of the first `np.ndim` = 2 rows |
| WeeklyData.ReshapeRoundTrip | iRONS/Functions/Data_management/day2week2month.py:16-17 | reshaping a 1-D series gives a one-column table whose column 0 is the series |
| WeeklyData.ColumnSumSplit | iRONS/Functions/Data_management/day2week2month.py:50-51 | sums over consecutive row ranges add up |
| WeeklyData.CumIsRunningTotal | iRONS/Functions/Data_management/day2week2month.py:48-51 | the cumulative weekly sum of week l is weeks 1..l of the weekly sums added up |
| WeeklyData.WeeklySums | iRONS/Functions/Data_management/day2week2month.py:40-51 | N + 1 rows (N whole weeks, floor division); row l sums days idx+7(l-1)..idx+7l-1 (cumulative: idx..idx+7l-1) and date l is dates[idx + 7l] |
| WeeklyData.Day2Week | iRONS/Functions/Data_management/day2week2month.py:14-54 | for data with at least one row per date: fails exactly when a given start is before the first date, a given end after the last, or the start is not a date; otherwise returns the weekly rows |
| WeeklyData.DailyOnes | iRONS/Software/test_functions/test_day2week2month.py:22-48 | 31 dates with 32 daily ones give dates d0, d0+7, ..., d0+28, weeks [0,7,7,7,7] and cumulative [0,7,14,21,28] |
| Cumulative.IncrementsShape | iRONS/Functions/Data_management/cum2inst.py:29-33 | same length; row 0 copied; later entries >= 0, at least the actual change, and equal to it exactly when the data do not fall |
| Cumulative.TotalsOfIncrementsAtLeast | iRONS/Functions/Data_management/cum2inst.py:30-32 | the running totals of the increments never fall below the data |
| Cumulative.RoundTrip | Toolbox/Data_management/cum2inst.py:15-18 | the prefix sums of the output give back the input exactly when every column value is at least the one before |
| Cumulative.IncrementsOfTotals | iRONS/Functions/Data_management/cum2inst.py:25-33 | differencing the running totals of amounts that are >= 0 after row 0 gives the amounts back |
| Cumulative.TenTwentyTwenty | iRONS/Software/test_functions/test_cum2inst.py:20-29 | [[10],[20],[20]] gives [[10],[10],[0]] |
| Cumulative.FillColumn | Toolbox/Data_management/cum2inst.py:16-17 | the inner loop writes rows 1.. of column i with the clipped increases; nothing else changes |
| Cumulative.Cum2Inst | iRONS/Functions/Data_management/cum2inst.py:23-35 | a fresh table of the input's shape; column i is the increments of input column i (both copies) |

## Left out

- The `exec`-based import of functions by name is not modelled:
  - Toolbox/Reservoir_system_simulation/Res_sys_sim.py:74-135 (`Res_sys_sim`);
  - Submodules/Res_sys_sim.py:38-41, 48-49, 56-57 and 66-76.

  It runs code named by strings. The Toolbox front end is not modelled at all (only its `Mass_bal_func` and `four_points_policy` are). Of the Submodules front end, the `[]` branch, the array branch and a value taken by no branch are modelled; the `rel_inf` entry is taken to be `[]`. An array compared with `[]` is read as False, as numpy before 1.25 does; later numpy raises ValueError on that comparison when T > 1.
- The module-level script in Toolbox/Reservoir_system_simulation/Res_sys_sim.py:137-196 draws random inputs. Only its `four_points_policy` is modelled.
- The log-exponential policies `op_logexp_1res_v1`/`v2` (iRONS/Software/operating_policy.py:77-268) are not modelled: they need ln, exp and real powers.
- Date parsing is replaced by integers:
  - days of the year (1..365, since '%d %b' parses into the non-leap year 1900) or day numbers;
  - `day2week` takes daily, consecutive day numbers;
  - the pandas date list `ydate` of `curve` (Operating_rule_curves.py:42-48) and the `DatetimeIndex` return types are not produced.
- IEEE floating point is modelled as exact reals. NaN sentinels become `Option` or the never-read 1 x 1 placeholder. Rounding of `k * 0.01` is not modelled: the grid is exactly k/100.
- The same array given as both the release and the inflow schedule is excluded by a precondition of the two `res_sys_sim` front ends: the source would let the two lookups overwrite one array.
- `day2week` with fewer data rows than dates is not modelled: numpy would cut the slices short silently.
- The numba `prange` over ensemble members becomes a sequential loop. Members share no data.
- The caller's policy functions (`rel_func`, `inf_func`, and the rule-curve pair `input[0]`/`input[1]`) are function parameters. The rule-curve day tables are given as the result of `input[1](param)`.
- Input shapes the two `res_sys_sim` front ends (Software and Functions) accept are narrower than the source's, and are preconditions rather than `Failure` results:
  - a schedule must be exactly T x M; the engines only index `[t, m]`, so the source also runs with a larger one;
  - the release and storage day tables of a rule curve must have the same number of rows; the source's `param[:,1] = r_yday[:,yday]` (iRONS/Functions/Reservoir_system_simulation/Res_sys_sim.py:212-213) also broadcasts a one-row `r_yday`;
  - inflow, evaporation and requirement arrays must have the shapes `Callable` names; other shapes make numpy raise ValueError or IndexError, which the model does not report.
- IronsEngine.IndexFits, SoftwareSim.ResSysSim: a variable policy's column index `int(policy_rel_idx[t])` (iRONS/Software/res_sys_sim.py:25, 131, 140) must be an integer in [0, width) for each of the T steps, or the run is a `Failure`. The compiled engine instead reads a negative index as column width + index, reads an index at or beyond the width (or past the end of a short index array) without a bounds check, and truncates a fractional index with `int()`; none of these three behaviours is modelled.
- A policy table whose shape numpy.interp would reject is reported as a `Failure` by the front ends; numpy raises instead. The engines themselves require fitting tables, sorted interpolation knots and `s_min <= s_max` where a property needs them.
- RuleCurves: single-point curves are excluded by a precondition. In the source they index past the interpolated days.
- RuleCurves: the unused `si`/`ri` arrays of the Software `rule_curve` are not modelled.
- RuleCurves.FirstDayValue: stated only when the second control point lies strictly after the first on the day axis. With two points on the first day, numpy.interp takes the later one.
- PiecewisePolicy.PolicyGridShape: the start value ui[0] is stated only when the second storage knot is above zero (or there is one point). Otherwise numpy.interp takes a later knot.
- PointPolicies.FourPointsGridEnds: the start value is stated only when x1's storage is above 0. With x1 at storage 0 the first two knots share storage 0 and numpy.interp takes x1's release there, not the minimum.
- IronsEngine.CumulativeBalance: stated only over steps that never start with negative available water. The floor at `s_min` adds water in such a step (see IronsEngine.StepBalance).
- SubmodulesSim.CumulativeBalance: stated only without a release schedule. SubmodulesSim.ScheduleBreaksBalance shows the balance failing with one.
- Not part of this model: iRONS/Software/download_forecast.py (network), Read_data.py (file I/O), Bias_correction.py (file I/O and statistics), Toolbox/Pythonic_vs_Numba.py (timing), setup.py (packaging).
