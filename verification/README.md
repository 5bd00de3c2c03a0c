# Hodgkin-Huxley membrane simulator: a Dafny model of the integration engine

This project models the numerical engine of a small Hodgkin-Huxley simulator.
The engine is the function `HH(i_inj, time_tot, ...)`, which drives a single
membrane patch with a step current and integrates voltage `V` and the three
gating variables `M`, `H` and `N` with forward Euler. Around it sit the six
gate rate functions and the action-potential test `is_action_potential`.
The engine exists in three variants:

- `HH_back.py` is the one the live GUI imports. It uses absolute voltages
  (rest at -70 mV) and `DeltaT = 0.001` ms. Each gate update is clamped into
  [0, 1], and per-gate flags force a disabled gate open (value 1).
- `HH_backend.py` has the same constants and rates but no clamp and no flags.
  It does not return the current vector.
- `old_HH.py` measures voltages from 0 mV. Its reversal potentials are
  offsets of a `rest_potential` parameter, it uses `DeltaT = 0.01` ms, and it
  writes the voltage update with inward driving forces `E - V`.

The maths is floating point in the source; here it uses exact `real`s.
`np.exp` becomes a parameter `e: Exp`: any real function with `e(0) = 1`,
`e(x) > 0`, `e(x) < 1` for `x < 0` and `e(x) > 1` for `x > 0`
(`exponential.dfy`). Every statement below therefore holds for every such
function, including the real exponential.

Layout:

- `absolute_rates.dfy` (`AbsoluteRates`) holds the six rates shared by
  `HH_back.py` and `HH_backend.py`.
- `rest_rates.dfy` (`RestRates`) holds the rates of `old_HH.py`.
- `kinetics.dfy` (`Kinetics`) dispatches over a rate table and defines the
  steady state, the gate drift and the clamp.
- `sampling.dfy` (`Sampling`) models the sample count and the
  `np.arange`/`np.put` stimulus.
- `euler.dfy` (`Euler`) holds the configuration, the trace, the relation
  `Follows` that describes what the arrays hold after the loop, and the loop
  `Integrate`.
- `trajectory_facts.dfy` (`TrajectoryFacts`) proves the properties of every
  run.
- `threshold.dfy` (`Threshold`) is the max-scan.
- `hh_back.dfy`, `hh_backend.dfy` and `old_hh.dfy` are the three entry points.

Notes on the code's behaviour:

- **Stimulus window.** The stimulated samples are those `np.arange(0.15 n,
  0.30 n, 1, dtype=int)` yields. That is `floor(0.15 n)` onward, for
  `ceil(0.15 n)` samples. The window can therefore end at `floor(0.30 n)` or
  one sample later (`Sampling.WindowEnd`, `Sampling.SingleSampleIsStimulated`).
- **Last sample of a disabled gate.** A disabled gate is 1 at every sample
  except the last. The last is the Euler step from 1, which is strictly
  below 1 (a one-sample run keeps the steady state, since the loop never
  runs).
- **Clamp.** Only `HH_back.py` clamps the gate updates; `HH_backend.py` and
  `old_HH.py` do not.
- **Non-positive durations.** The code does not check `time_tot`. A
  non-positive duration fails inside numpy, and the model names those
  exceptions (`Euler.PyError`).
- **Gate updates** use the pre-step voltage `V[i]` in all three variants.

## Model

| member | source | states |
|---|---|---|
| `AbsoluteRates.AlphaN` | HH_back.py:92-93 | As written, alphaN is positive exactly for v < -55 or v > -50, zero exactly at -55 and negative on (-55, -50). The code in HH_backend.py:63-64 is identical. |
| `AbsoluteRates.BetaN` | HH_back.py:96-97 | betaN is positive at every voltage (also HH_backend.py:67-68). |
| `AbsoluteRates.AlphaM` | HH_back.py:100-101 | alphaM is positive at every voltage except its singular point -40 mV (also HH_backend.py:71-72). |
| `AbsoluteRates.BetaM` | HH_back.py:104-105 | betaM is positive at every voltage. |
| `AbsoluteRates.AlphaH` | HH_back.py:108-109 | alphaH is positive at every voltage. |
| `AbsoluteRates.BetaH` | HH_back.py:112-113 | betaH lies strictly between 0 and 1 at every voltage. |
| `AbsoluteRates.AlphaNPoleIsNotRemovable` | HH_backend.py:63-64 | alphaN's denominator is zero exactly at -50 mV, where its numerator is 0.05: a true pole. |
| `AbsoluteRates.AlphaMPoleIsRemovable` | HH_backend.py:71-72 | alphaM's denominator is zero exactly at -40 mV, where its numerator is 0 too: a removable 0/0. |
| `AbsoluteRates.AlphaNNegativeBelowPole` | HH_back.py:92-93 | The as-written alphaN is negative at -52 mV. |
| `AbsoluteRates.AlphaNIntended` | HH_back.py:92-93 | alphaN with its exponential centred at -55 mV is positive everywhere except at its singular point. |
| `RestRates.AlphaN` | old_HH.py:56-57 | The rest-relative alphaN is positive at every voltage except its singular point 10 mV. |
| `RestRates.BetaN` | old_HH.py:60-61 | betaN is positive at every voltage. |
| `RestRates.AlphaM` | old_HH.py:64-65 | alphaM is positive at every voltage except its singular point 25 mV. |
| `RestRates.BetaM` | old_HH.py:68-69 | betaM is positive at every voltage. |
| `RestRates.AlphaH` | old_HH.py:72-73 | alphaH is positive at every voltage. |
| `RestRates.BetaH` | old_HH.py:76-77 | betaH lies strictly between 0 and 1 at every voltage. |
| `RestRates.PolesAreRemovable` | old_HH.py:56-65 | The alphaN and alphaM denominators vanish exactly at 10 and 25 mV, where their numerators vanish too. |
| `RestRates.ShiftedRatesAgree` | old_HH.py:60-77 | Shifting the voltage by 65 mV turns betaN, betaM, alphaH and betaH into the absolute rates of HH_back.py. |
| `RestRates.ShiftedAlphaMAgrees` | old_HH.py:64-65 | Shifted by 65 mV, alphaM equals the absolute alphaM wherever the latter is defined. |
| `RestRates.ShiftedAlphaNIsIntended` | old_HH.py:56-57 | Shifted by 65 mV, alphaN equals the intended absolute alphaN, not the as-written one. |
| `RestRates.ShiftedAlphaNDisagrees` | HH_back.py:92-93 | The as-written absolute alphaN differs from the shifted rest-relative alphaN at -52 mV. |
| `Kinetics.Alpha` | HH_back.py:79-81 | The alpha rate a gate update uses is positive, except the as-written absolute alphaN, which is positive exactly off [-55, -50]. |
| `Kinetics.Beta` | HH_back.py:79-81 | The beta rate a gate update uses is positive for every table, gate and voltage. |
| `Kinetics.Clamp` | HH_back.py:84-86 | `min(max(x, 0), 1)` lies in [0, 1], equals x exactly when x is in [0, 1], and is the point of [0, 1] nearest x. |
| `Kinetics.SteadyStateIsFixedPoint` | HH_back.py:44-47 | The initial value alpha/(alpha+beta) makes the gate drift alpha(1-g) - beta g exactly zero. |
| `Kinetics.SteadyStateIsProbability` | HH_backend.py:38-41 | Where alpha is non-negative the steady state is defined and lies in [0, 1), and inside (0, 1) where alpha is positive. |
| `Sampling.Ceil` | HH_back.py:29 | `math.ceil` yields the integer r with r - 1 < x <= r. |
| `Sampling.Trunc` | HH_back.py:40-41 | `int()` truncates toward zero: r <= x < r + 1 for x >= 0, and r - 1 < x <= r for x < 0. |
| `Sampling.SampleCount` | HH_back.py:28-29 | samples n satisfies (n-1)·dt < time_tot <= n·dt, and n <= 0 exactly when time_tot <= 0. |
| `Sampling.Arange` | HH_back.py:40-41 | `np.arange(start, stop, 1, dtype=int)` has ceil(stop - start) entries from int(start), or none when stop <= start. Consecutive entries differ by 1, except for -1 < start < 0, where numpy's integer step int(start + 1) - int(start) is 0. |
| `Sampling.ArangeRepeatsOnNegativeFraction` | HH_back.py:40-41 | `np.arange(-0.5, 2, 1, dtype=int)` is [0, 0, 0]. The stimulus never hits this case, since its start 0.15 n is non-negative. |
| `Sampling.Put` | HH_back.py:39-41 | `np.put` writes the value at every listed index and leaves every other entry unchanged. |
| `Sampling.FifteenPercent` | HH_back.py:24-25 | int(0.15 n) is floor(15n/100), and the arange length ceil(0.30 n - 0.15 n) is ceil(15n/100). |
| `Sampling.WindowFits` | HH_back.py:40-41 | The last stimulated index is below the sample count, so `np.put` never raises. |
| `Sampling.StepCurrent` | HH_back.py:39-41 | The current vector has n entries: i_inj on the samples of the arange window and 0 on every other sample. |
| `Sampling.WindowForMultiplesOfTwenty` | HH_backend.py:34-36 | When n is a multiple of 20, the window is exactly [3n/20, 3n/10). |
| `Sampling.WindowEnd` | old_HH.py:30-32 | The window ends at floor(0.30 n) or one sample after it. |
| `Sampling.SingleSampleIsStimulated` | HH_back.py:40-41 | A one-sample run is stimulated at its only sample, although floor(0.30) is 0. |
| `Euler.InwardMatchesOutward` | old_HH.py:44-45 | The inward-current voltage update of old_HH.py equals the outward form V + dt·(I - Σ g(V-E)·gating)/Cm of HH_back.py:74-75. |
| `Euler.ExtendFollows` | HH_back.py:50-86 | One loop iteration (override the disabled gates at sample i, step V, step and clamp the gates from V[i]) extends a valid run by one valid sample. |
| `Euler.Integrate` | HH_back.py:43-86 | Starting at V[0] = v0 with every gate at its steady state, the loop fills all samples and satisfies `Follows`. Alternatively it stops at the first sample whose voltage is a pole, with a valid prefix. It reports an undefined start exactly when a steady state is undefined at v0. |
| `TrajectoryFacts.FollowsIsDeterministic` | HH_back.py:50-86 | Two runs of the same length from the same configuration and current are identical. |
| `TrajectoryFacts.AgreeUpTo` | HH_backend.py:44-56 | Two runs agree on V, M, H and N at every sample up to k. |
| `TrajectoryFacts.StepKeepsAgreement` | HH_back.py:74-86 | If two runs agree on V, M, H and N at sample i, they agree at sample i + 1. |
| `TrajectoryFacts.ClampedGatesStayInUnitInterval` | HH_back.py:83-86 | With the clamp, every gate sample at index 1 or later lies in [0, 1]. |
| `TrajectoryFacts.DisabledGateHeldOpen` | HH_back.py:58-71 | A disabled gate equals 1 at samples 0..n-2. Sample n-1 is the (clamped) Euler step from 1, strictly below 1. A one-sample run keeps the steady state. |
| `TrajectoryFacts.StepFromOpenCloses` | HH_back.py:79-86 | An Euler step from a gate value of 1 lands strictly below 1. |
| `TrajectoryFacts.EnabledGateFollowsEuler` | HH_back.py:79-86 | An enabled gate is never overwritten. It starts at its steady state and each later sample is the Euler step from V[i] and gate[i]. |
| `TrajectoryFacts.FirstStepKeepsSteadyState` | HH_back.py:44-47 | An enabled gate keeps its initial steady-state value at sample 1. |
| `TrajectoryFacts.UnclampedRunInRangeIsClamped` | HH_backend.py:54-56 | An unclamped run whose gates all lie in [0, 1] is also a clamped run. |
| `TrajectoryFacts.UnclampedStepIsClamped` | HH_backend.py:54-56 | One unclamped step that lands in [0, 1] is also a clamped step. |
| `TrajectoryFacts.ClampIsInert` | HH_back.py:84-86 | Clamping a gate update that already lies in [0, 1] does not change it. |
| `Threshold.Max` | HH_back.py:182 | `V.max()` returns a sample of V that no sample exceeds. |
| `Threshold.Reaches` | HH_back.py:182-185 | `V.max() >= threshold` is true exactly when some sample reaches the threshold. |
| `HHBack.RestIsRegular` | HH_back.py:44-47 | At -70 mV every rate is defined and every initial gate lies strictly inside (0, 1). |
| `HHBack.GatesAreProbabilities` | HH_back.py:83-86 | Every gate sample of an HH_back.py run, sample 0 included, lies in [0, 1]. |
| `HHBack.HH` | HH_back.py:6-88 | It raises exactly when time_tot <= 0: ValueError at or below -0.001, IndexError otherwise. It never fails at rest. The current vector has ceil(time_tot/0.001) entries and is i_inj exactly on the window. A completed run has that many samples and follows the clamped, flag-overridden Euler loop. Every returned gate sample is in [0, 1]. |
| `HHBack.IsActionPotential` | HH_back.py:177-185 | It runs with all three gates enabled; when the caller gives no threshold it is 15 mV (`HHBack.DefaultThreshold`). When it answers, the answer is true exactly when the run's voltage reaches the threshold at some sample. It gives no answer only when time_tot <= 0 or when the all-enabled run on the step current reaches a singular voltage before its last sample, and then it returns that run up to the pole. An answer always comes from a full-length run. |
| `HHBackend.HH` | HH_backend.py:8-59 | It raises exactly when time_tot <= 0. A completed run has ceil(time_tot/0.001) samples and follows the unclamped, flag-free loop driven by the same step current. |
| `HHBackend.GatesStartAtRest` | HH_backend.py:38-56 | Every gate starts at its steady state at -70 mV and keeps it at sample 1. |
| `HHBackend.MatchesBackWhileGatesInRange` | HH_backend.py:54-56 | If all gate samples of this variant's run lie in [0, 1], the run equals HH_back.py's run with every gate enabled. |
| `HHBackend.IsActionPotential` | HH_backend.py:109-114 | When it answers, the answer is true exactly when the run's voltage reaches 15 mV at some sample. It gives no answer only when time_tot <= 0 or when the run on the step current reaches a singular voltage before its last sample, and then it returns that run up to the pole. An answer always comes from a full-length run. |
| `OldHH.RestSteadyStates` | old_HH.py:34-37 | The initial gates are defined exactly when rest_potential is neither 10 nor 25 mV, and they then lie strictly inside (0, 1). |
| `OldHH.HH` | old_HH.py:6-52 | rest_potential defaults to 0 mV (`OldHH.DefaultRest`). It raises exactly when time_tot <= 0. The start is undefined exactly when rest_potential is 10 or 25 mV. A completed run has ceil(time_tot/0.01) samples, starts at V[0] = rest_potential, and follows the unclamped loop with E_k = rest-12, E_Na = rest+115 and E_l = rest+10.613. |
| `OldHH.VoltageStepIsShiftEquivariant` | old_HH.py:6-14 | Moving rest_potential and V by the same amount moves V[i+1] by that amount. |
| `OldHH.StepMatchesOutwardForm` | old_HH.py:44-45 | Every voltage step of old_HH.py equals the outward-current form used by the other variants. |
| `OldHH.GatesStartAtRest` | old_HH.py:35-50 | Every gate starts at its steady state at rest_potential and keeps it at sample 1. |

## Left out

- Floating point. Reals are exact, so the rounding of `time_tot / DeltaT`
  before `math.ceil` and of every Euler step is not modelled. The real `exp`
  is replaced by any function obeying the laws of `Exponential.Exp`.
- Euler.Integrate, HHBack.HH, HHBackend.HH, OldHH.HH: numpy does not stop at an exact pole. At -40 mV alphaM is
  0/0 = NaN. At -50 mV alphaN is +inf, which `HH_back.py`'s clamp turns into
  1. In either case numpy carries on with non-finite or clamped values. The
  model stops there and returns the samples computed so far
  (`PoleReached`), or reports `NonFiniteAtRest` when the start is undefined.
  What the source computes after that point is not modelled.
- HHBack.IsActionPotential, HHBackend.IsActionPotential: no verdict is given
  for a run that reaches a pole before its last sample. In the source, `V.max()` would compare a NaN
  or a clamped trace there.
- Whether a given stimulus (for example 15 nA for 15 ms) actually fires, and
  whether a run with no current stays at rest. These are numerical outcomes
  of real exponentials and floating point, and the abstract `Exp` cannot
  decide them.
- Arrays are modelled as sequences that grow by one sample per loop
  iteration (`Euler.Extend`). In-place writes to preallocated numpy arrays
  are not modelled; the values stored are the same.
- The plotting functions (`plot_potential`, `plot_dynamics`,
  `plot_dynamics_by_volt`, `plot_step_current`) and the module-level script
  code that runs on import are out of scope: they only render the traces.
- The Tkinter GUIs (`HH_front.py`, `HH-front.py`) and `main.py` are not part
  of this model.
- `HH according Itay.py` is not part of this model.
- The imported but unused `scipy.integrate.ode` is not modelled. There is no
  Runge-Kutta scheme in the three modelled variants.
- `HHBackend.HH` does not return the current vector, as in the source.
  Its contract states the vector it integrates with as
  `StepCurrent(samples, i_inj)`.

## Findings

| source | as written | input that shows it | evidently intended | confidence | as-written member | corrected member |
|---|---|---|---|---|---|---|
| HH_back.py:92-93 | `alphaN(v) = 0.01(v+55)/(1 - exp(-(v+50)/10))`: the numerator is centred at -55 mV, the exponential at -50 mV (same text at HH_backend.py:63-64) | v = -52 mV gives a negative opening rate; v = -50 mV divides 0.05 by 0 | `exp(-(v+55)/10)`. This is the textbook form, and `old_HH.py`'s alphaN shifted by 65 mV is exactly this (`RestRates.ShiftedAlphaNIsIntended`). It gives a positive rate with a removable singularity at -55 mV. | medium; not executed | `AbsoluteRates.AlphaNNegativeBelowPole` | `AbsoluteRates.AlphaNIntended` |

The integrator accepts the corrected table as `Kinetics.AbsoluteIntended`,
and every property in `TrajectoryFacts` holds for it as for the other
tables. The three entry points keep the rate table each source file
actually uses.
