# Stochastic SIR stepper

A Dafny model of the simulation loop of the Streamlit demo `sir_app.py`
(lines 78-99). The demo splits a closed population into Susceptible, Infected
and Recovered counts and advances them over `all_step` discrete steps. Each
step does the following:

- It computes `p_infection = beta * S * I * dt` and `p_recover = gamma * I * dt` from the current counts.
- It takes one uniform sample `rand` in [0, 1).
- It picks exactly one event. Infection (S-1, I+1) fires when `rand < p_infection`. Otherwise recovery (I-1, R+1) fires when `rand < p_infection + p_recover`. Otherwise nothing changes.
- It appends the new counts to the lists `s`, `i` and `r`.

The samples come from a process-wide random generator in the program. Here
they are an explicit input `draws: seq<real>`, so a run is a function of the
parameters, the initial counts and the samples.

Files:

- `sir.dfy`, module `Sir`, holds the following:
  - the state and parameter datatypes;
  - the pure branch choice `Step`;
  - the specification function `Trajectory`, which gives the trajectory for a sequence of samples;
  - the method `Run`, which is the loop over three growing sequences, proved equal to `Trajectory`;
  - the lemmas about trajectories: one-step shape, prefix stability, conservation, monotonicity, non-negativity and frozen states.
- `sir_scenarios.dfy`, module `SirScenarios`, holds whole-run corollaries and three worked scenarios: zero initial infected, zero rates, and a forced infection or recovery.

## Model

| member | source | states |
|---|---|---|
| `Sir.Step` | sir_app.py:82-98 | One step keeps S+I+R. The result is an infection (S-1, I+1, R) exactly when the sample is below `p_infection`. It is a recovery (S, I-1, R+1) exactly when the sample is at least `p_infection` and below `p_infection + p_recover`. It equals the old state exactly when the sample is at least both. One of the three shapes always holds. |
| `Sir.Trajectory` | sir_app.py:78-98 | A run over k samples has k+1 entries, and entry 0 is the initial state. |
| `Sir.Run` | sir_app.py:78-99 | The loop returns three lists of equal length: `all_step + 1` entries when `all_step` is positive, and only the initial entry when it is zero or negative, as `range` then runs no iteration. They start at (s0, i0, 0) and equal `Trajectory` over the consumed samples, point by point. Each entry t+1 is `Step` from entry t with sample t. Every entry has S+I+R = s0+i0. S never increases and R never decreases. Given non-negative rates, dt, s0 and i0 and non-negative consumed samples, no count is negative. |
| `Sir.TrajectoryStep` | sir_app.py:81-98 | Entry k+1 is `Step` applied to entry k with the k-th sample. The probabilities are computed from state k. |
| `Sir.TrajectoryPrefix` | sir_app.py:78-98 | The first k+1 entries equal the run over the first k samples alone. Later steps only append and never overwrite an earlier entry, and the output depends only on the samples consumed. |
| `Sir.Conservation` | sir_app.py:88-98 | Every entry has the population size S+I+R of the initial state. |
| `Sir.Monotone` | sir_app.py:88-98 | For j <= k, S at k is at most S at j, and R at j is at most R at k. |
| `Sir.StepNonNegative` | sir_app.py:82-94 | Given non-negative rates, dt, counts and sample, an infection happens only when S >= 1 and I >= 1, and a recovery only when I >= 1. So a step leaves every count non-negative. |
| `Sir.NonNegative` | sir_app.py:78-98 | Given non-negative beta, gamma and dt (the lower bounds of the sliders and the dt input), non-negative initial counts and non-negative samples, no count of any entry is negative. No clamping is involved, and no upper bound is needed: the result holds even when `p_infection + p_recover` exceeds 1. |
| `Sir.StepFrozen` | sir_app.py:82-98 | A state with I = 0, or any state with beta = gamma = 0, is left unchanged by a step with a non-negative sample. |
| `Sir.FrozenAfterExtinction` | sir_app.py:81-98 | Once I is 0 at entry k, every later entry equals entry k. The run still produces all its entries, because the loop has no early exit. |
| `Sir.FrozenWithoutRates` | sir_app.py:81-98 | With beta = gamma = 0 and non-negative samples, every entry equals the initial state. |
| `SirScenarios.NoInitialInfected` | sir_app.py:78-98 | With I0 = 0 and non-negative samples, every entry equals (s0, 0, 0). |
| `SirScenarios.ZeroRatesScenario` | sir_app.py:78-98 | beta = gamma = 0, dt = 0.1, five steps from (100, 10, 0) give six entries, all (100, 10, 0), for any five non-negative samples. |
| `SirScenarios.ForcedInfectionScenario` | sir_app.py:82-90 | beta = 1, gamma = 0, dt = 1 from (1, 1, 0) with sample 0 gives (1, 1, 0) then (0, 2, 0). |
| `SirScenarios.ForcedRecoveryScenario` | sir_app.py:82-94 | beta = 0, gamma = 1, dt = 1 from (0, 1, 0) with sample 0 gives (0, 1, 0) then (0, 0, 1). |

## Left out

- The Streamlit page is not modelled: titles, text, LaTeX and markdown (sir_app.py:13-56), sliders and number inputs (sir_app.py:60-72), the button, spinner and success message. The parameters are inputs of `Run`. Of the bounds those widgets impose (beta, gamma in [0, 1], dt in [0, 1]), only the lower bounds beta, gamma, dt >= 0 are used, as hypotheses of the non-negativity results. The upper bounds are not needed. `Run` itself accepts any values, as the loop does.
- `random.random()` (sir_app.py:85) is a library generator. It is replaced by the input sequence `draws`, which must hold at least one sample per iteration. Only the lower end of its range [0, 1) is used: a sample >= 0 is a hypothesis of the results that need it.
- The `print` calls (sir_app.py:86, 99, 121) are output only.
- The Plotly figure and the pandas table (sir_app.py:101-119) are rendering. Their x-axis `np.arange(all_step)` has one point fewer than the series, which is a plotting matter.
- `app.py` is not part of this model. It covers CSV loading, a group-by bar chart and a per-entity time-series chart, all thin wrappers over pandas and Plotly.
- The probabilities are computed in IEEE double precision in the program and in exact `real` arithmetic here. Rounding moves the thresholds themselves. A sample within one rounding error of a threshold can therefore take a different branch in the program than in the model, and that effect is not captured.
- A negative `all_step` is accepted, and the loop then runs zero times, as Python's `range` does. It is not rejected as an invalid parameter. The counts are unbounded integers, as Python's are.
