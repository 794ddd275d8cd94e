/**
 * Whole-run consequences of the stepper and three worked scenarios: a run
 * with no infected individual, a run with both rates zero, and single steps
 * forced by a zero sample into an infection or a recovery.
 */
module SirScenarios {
  import opened Sir

  /** With I0 = 0 the infection never starts: every entry is the initial state. */
  lemma NoInitialInfected(p: Params, s0: int, draws: seq<real>, k: nat)
    requires NonNegSamples(draws)
    requires k <= |draws|
    ensures Trajectory(p, State(s0, 0, 0), draws)[k] == State(s0, 0, 0)
  {
    FrozenAfterExtinction(p, State(s0, 0, 0), draws, 0, k);
  }

  /** beta = gamma = 0, dt = 0.1, five steps from (100, 10, 0): six copies of (100, 10, 0). */
  lemma ZeroRatesScenario(draws: seq<real>)
    requires |draws| == 5 && NonNegSamples(draws)
    ensures |Trajectory(Params(0.0, 0.0, 0.1), State(100, 10, 0), draws)| == 6
    ensures forall k :: 0 <= k < 6 ==>
      Trajectory(Params(0.0, 0.0, 0.1), State(100, 10, 0), draws)[k] == State(100, 10, 0)
  {
    forall k | 0 <= k < 6
      ensures Trajectory(Params(0.0, 0.0, 0.1), State(100, 10, 0), draws)[k] == State(100, 10, 0)
    {
      FrozenWithoutRates(Params(0.0, 0.0, 0.1), State(100, 10, 0), draws, k);
    }
  }

  /** beta = 1, gamma = 0, dt = 1 from (1, 1, 0) with sample 0: p_infection = 1, so (0, 2, 0). */
  lemma ForcedInfectionScenario()
    ensures Trajectory(Params(1.0, 0.0, 1.0), State(1, 1, 0), [0.0]) == [State(1, 1, 0), State(0, 2, 0)]
  {
    assert [0.0][..0] == [];
  }

  /** beta = 0, gamma = 1, dt = 1 from (0, 1, 0) with sample 0: p_recover = 1, so (0, 0, 1). */
  lemma ForcedRecoveryScenario()
    ensures Trajectory(Params(0.0, 1.0, 1.0), State(0, 1, 0), [0.0]) == [State(0, 1, 0), State(0, 0, 1)]
  {
    assert [0.0][..0] == [];
  }
}
