/**
 * The discrete-time stochastic SIR stepper of the Streamlit demo `sir_app.py`.
 *
 * A population is split into Susceptible, Infected and Recovered counts.  At
 * every step the probabilities of one new infection and of one recovery are
 * computed from the current counts, one uniform sample decides which of the
 * three events (infection, recovery, nothing) happens, and the new counts are
 * appended to the trajectory.  The uniform samples the program takes from the
 * process-wide random generator are an explicit input sequence here.
 */
module Sir {

  /** The rates and the time increment chosen by the user. */
  datatype Params = Params(beta: real, gamma: real, dt: real)

  /** One point of the trajectory: the three population counts. */
  datatype State = State(s: int, i: int, r: int)

  /** The closed population size, which no event changes. */
  function Total(st: State): int
  {
    st.s + st.i + st.r
  }

  /** Probability that one susceptible is infected during this step. */
  function PInfection(p: Params, st: State): real
  {
    p.beta * (st.s as real) * (st.i as real) * p.dt
  }

  /** Probability that one infected recovers during this step. */
  function PRecover(p: Params, st: State): real
  {
    p.gamma * (st.i as real) * p.dt
  }

  /** `next` is `st` after one infection: S-1, I+1, R unchanged. */
  predicate IsInfection(st: State, next: State)
  {
    next == State(st.s - 1, st.i + 1, st.r)
  }

  /** `next` is `st` after one recovery: S unchanged, I-1, R+1. */
  predicate IsRecovery(st: State, next: State)
  {
    next == State(st.s, st.i - 1, st.r + 1)
  }

  /** The rates and the time increment are what the sliders and the input allow. */
  predicate NonNegParams(p: Params)
  {
    p.beta >= 0.0 && p.gamma >= 0.0 && p.dt >= 0.0
  }

  /**
   * Every sample is at least 0, as those of a uniform generator on [0, 1)
   * are.  No result needs the upper bound 1.
   */
  predicate NonNegSamples(draws: seq<real>)
  {
    forall k :: 0 <= k < |draws| ==> 0.0 <= draws[k]
  }

  /**
   * One step from `st` with the uniform sample `u`: infection has priority,
   * then recovery, otherwise nothing happens.  Each event keeps the population
   * size, and exactly one of the three shapes of change is taken, selected by
   * where `u` falls against the two cumulative probabilities.
   */
  function Step(p: Params, st: State, u: real): (next: State)
    ensures Total(next) == Total(st)
    ensures IsInfection(st, next) <==> u < PInfection(p, st)
    ensures IsRecovery(st, next) <==> PInfection(p, st) <= u < PInfection(p, st) + PRecover(p, st)
    ensures next == st <==> PInfection(p, st) <= u && PInfection(p, st) + PRecover(p, st) <= u
    ensures IsInfection(st, next) || IsRecovery(st, next) || next == st
  {
    var pInfection := PInfection(p, st);
    var pRecover := PRecover(p, st);
    if u < pInfection then
      State(st.s - 1, st.i + 1, st.r)
    else if u < pInfection + pRecover then
      State(st.s, st.i - 1, st.r + 1)
    else
      st
  }

  /**
   * The trajectory from `init` that consumes the samples `draws` one per step,
   * in order: entry k+1 is `Step` applied to entry k with `draws[k]`.
   */
  function Trajectory(p: Params, init: State, draws: seq<real>): (tr: seq<State>)
    ensures |tr| == |draws| + 1
    ensures tr[0] == init
    decreases |draws|
  {
    if draws == [] then
      [init]
    else
      var prev := Trajectory(p, init, draws[..|draws| - 1]);
      prev + [Step(p, prev[|prev| - 1], draws[|draws| - 1])]
  }

  /** The number of iterations of `range(allStep)`: none when `allStep` is not positive. */
  function Steps(allStep: int): nat
  {
    if allStep > 0 then allStep else 0
  }

  /**
   * The simulation loop: starting from (s0, i0, 0), take one sample per
   * iteration and append the next counts to the three lists.
   */
  method Run(beta: real, gamma: real, dt: real, allStep: int, s0: int, i0: int, draws: seq<real>)
    returns (s: seq<int>, i: seq<int>, r: seq<int>)
    requires |draws| >= Steps(allStep)
    ensures |s| == Steps(allStep) + 1 && |i| == |s| && |r| == |s|
    ensures allStep <= 0 ==> |s| == 1
    ensures allStep > 0 ==> |s| == allStep + 1
    ensures s[0] == s0 && i[0] == i0 && r[0] == 0
    ensures forall t :: 0 <= t < |s| ==>
      State(s[t], i[t], r[t]) == Trajectory(Params(beta, gamma, dt), State(s0, i0, 0), draws[..Steps(allStep)])[t]
    ensures forall t :: 0 <= t < Steps(allStep) ==>
      State(s[t + 1], i[t + 1], r[t + 1]) == Step(Params(beta, gamma, dt), State(s[t], i[t], r[t]), draws[t])
    ensures forall t :: 0 <= t < |s| ==> s[t] + i[t] + r[t] == s0 + i0
    ensures forall t, t' :: 0 <= t <= t' < |s| ==> s[t'] <= s[t] && r[t] <= r[t']
    ensures NonNegParams(Params(beta, gamma, dt)) && s0 >= 0 && i0 >= 0 && NonNegSamples(draws[..Steps(allStep)]) ==>
      forall t :: 0 <= t < |s| ==> s[t] >= 0 && i[t] >= 0 && r[t] >= 0
  {
    var p := Params(beta, gamma, dt);
    var init := State(s0, i0, 0);
    var n := Steps(allStep);
    s, i, r := [s0], [i0], [0];
    for t := 0 to n
      invariant |s| == t + 1 && |i| == t + 1 && |r| == t + 1
      invariant forall k :: 0 <= k <= t ==> State(s[k], i[k], r[k]) == Trajectory(p, init, draws[..t])[k]
    {
      var next := Step(p, State(s[t], i[t], r[t]), draws[t]);
      s, i, r := s + [next.s], i + [next.i], r + [next.r];
      assert draws[..t + 1][..t] == draws[..t];
    }
    forall t | 0 <= t < n
      ensures State(s[t + 1], i[t + 1], r[t + 1]) == Step(p, State(s[t], i[t], r[t]), draws[t])
    {
      TrajectoryStep(p, init, draws[..n], t);
    }
    forall t | 0 <= t < |s|
      ensures s[t] + i[t] + r[t] == s0 + i0
    {
      Conservation(p, init, draws[..n], t);
    }
    forall t, t' | 0 <= t <= t' < |s|
      ensures s[t'] <= s[t] && r[t] <= r[t']
    {
      Monotone(p, init, draws[..n], t, t');
    }
    if NonNegParams(p) && s0 >= 0 && i0 >= 0 && NonNegSamples(draws[..n]) {
      forall t | 0 <= t < |s|
        ensures s[t] >= 0 && i[t] >= 0 && r[t] >= 0
      {
        NonNegative(p, init, draws[..n], t);
      }
    }
  }

  /** Entry k+1 of a trajectory is one `Step` from entry k with the k-th sample. */
  lemma {:induction false} TrajectoryStep(p: Params, init: State, draws: seq<real>, k: nat)
    requires k < |draws|
    ensures Trajectory(p, init, draws)[k + 1] == Step(p, Trajectory(p, init, draws)[k], draws[k])
    decreases |draws|
  {
    var front := draws[..|draws| - 1];
    if k < |draws| - 1 {
      TrajectoryStep(p, init, front, k);
    }
  }

  /**
   * The first k+1 entries depend on the first k samples alone, and later
   * steps only append: nothing already produced is overwritten.
   */
  lemma {:induction false} TrajectoryPrefix(p: Params, init: State, draws: seq<real>, k: nat)
    requires k <= |draws|
    ensures Trajectory(p, init, draws)[..k + 1] == Trajectory(p, init, draws[..k])
    decreases |draws|
  {
    if k < |draws| {
      var front := draws[..|draws| - 1];
      TrajectoryPrefix(p, init, front, k);
      assert front[..k] == draws[..k];
    } else {
      assert draws[..k] == draws;
    }
  }

  /** Every entry of a trajectory has the population size of the initial state. */
  lemma {:induction false} Conservation(p: Params, init: State, draws: seq<real>, k: nat)
    requires k <= |draws|
    ensures Total(Trajectory(p, init, draws)[k]) == Total(init)
  {
    if k > 0 {
      Conservation(p, init, draws, k - 1);
      TrajectoryStep(p, init, draws, k - 1);
    }
  }

  /** Along a trajectory S never increases and R never decreases. */
  lemma {:induction false} Monotone(p: Params, init: State, draws: seq<real>, j: nat, k: nat)
    requires j <= k <= |draws|
    ensures Trajectory(p, init, draws)[k].s <= Trajectory(p, init, draws)[j].s
    ensures Trajectory(p, init, draws)[j].r <= Trajectory(p, init, draws)[k].r
    decreases k
  {
    if j < k {
      Monotone(p, init, draws, j, k - 1);
      TrajectoryStep(p, init, draws, k - 1);
    }
  }

  /**
   * With non-negative rates, counts and sample, an infection can only fire
   * when S >= 1 and I >= 1, and a recovery only when I >= 1; so one step
   * never makes a count negative.
   */
  lemma StepNonNegative(p: Params, st: State, u: real)
    requires NonNegParams(p)
    requires st.s >= 0 && st.i >= 0 && st.r >= 0
    requires u >= 0.0
    ensures IsInfection(st, Step(p, st, u)) ==> st.s >= 1 && st.i >= 1
    ensures IsRecovery(st, Step(p, st, u)) ==> st.i >= 1
    ensures Step(p, st, u).s >= 0 && Step(p, st, u).i >= 0 && Step(p, st, u).r >= 0
  {
  }

  /**
   * Given non-negative rates, time increment, initial counts and samples, no
   * count of the trajectory is ever negative, without any clamping, even when
   * the two probabilities add up to more than 1.
   */
  lemma {:induction false} NonNegative(p: Params, init: State, draws: seq<real>, k: nat)
    requires NonNegParams(p)
    requires init.s >= 0 && init.i >= 0 && init.r >= 0
    requires NonNegSamples(draws)
    requires k <= |draws|
    ensures Trajectory(p, init, draws)[k].s >= 0
    ensures Trajectory(p, init, draws)[k].i >= 0
    ensures Trajectory(p, init, draws)[k].r >= 0
  {
    if k > 0 {
      NonNegative(p, init, draws, k - 1);
      TrajectoryStep(p, init, draws, k - 1);
      StepNonNegative(p, Trajectory(p, init, draws)[k - 1], draws[k - 1]);
    }
  }

  /**
   * A state with no infected, or any state under zero rates, has both
   * probabilities 0, so a non-negative sample leaves it unchanged.
   */
  lemma StepFrozen(p: Params, st: State, u: real)
    requires st.i == 0 || (p.beta == 0.0 && p.gamma == 0.0)
    requires u >= 0.0
    ensures Step(p, st, u) == st
  {
  }

  /**
   * Once I reaches 0 every later entry equals that state, yet the trajectory
   * still has one entry per sample: there is no early exit.
   */
  lemma {:induction false} FrozenAfterExtinction(p: Params, init: State, draws: seq<real>, k: nat, j: nat)
    requires NonNegSamples(draws)
    requires k <= j <= |draws|
    requires Trajectory(p, init, draws)[k].i == 0
    ensures Trajectory(p, init, draws)[j] == Trajectory(p, init, draws)[k]
    decreases j
  {
    if k < j {
      FrozenAfterExtinction(p, init, draws, k, j - 1);
      TrajectoryStep(p, init, draws, j - 1);
      StepFrozen(p, Trajectory(p, init, draws)[j - 1], draws[j - 1]);
    }
  }

  /** With beta == gamma == 0 the whole trajectory repeats the initial state. */
  lemma {:induction false} FrozenWithoutRates(p: Params, init: State, draws: seq<real>, k: nat)
    requires p.beta == 0.0 && p.gamma == 0.0
    requires NonNegSamples(draws)
    requires k <= |draws|
    ensures Trajectory(p, init, draws)[k] == init
  {
    if k > 0 {
      FrozenWithoutRates(p, init, draws, k - 1);
      TrajectoryStep(p, init, draws, k - 1);
      StepFrozen(p, Trajectory(p, init, draws)[k - 1], draws[k - 1]);
    }
  }
}
