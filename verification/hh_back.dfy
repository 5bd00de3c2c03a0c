/** HH_back.py: the variant the live GUI uses. Absolute voltages, rest at
    -70 mV, DeltaT = 0.001 ms, gate updates clamped into [0, 1], and per-gate
    enable flags. */
module HHBack {
  import opened Exponential
  import opened Kinetics
  import opened Euler
  import opened Sampling
  import opened TrajectoryFacts
  import opened Threshold

  const RestPotential: real := -70.0
  const DeltaT: real := 0.001
  /** The threshold is_action_potential uses when the caller gives none;
      the GUI always relies on it. */
  const DefaultThreshold: real := 15.0
  const Constants: Membrane := Membrane(36.0, 120.0, 0.3, -77.0, 50.0, -54.4, 1.0)

  function Setup(flags: Flags): Config
  {
    Config(Constants, Absolute, DeltaT, RestPotential, true, flags, false)
  }

  /** samples = ceil(time_tot / 0.001). */
  function Samples(timeTot: real): int
  {
    SampleCount(timeTot, DeltaT)
  }

  /** At -70 mV every rate is defined and every steady state lies strictly
      inside (0, 1); in particular alphaN is positive there, since -70 is
      below -55. */
  lemma RestIsRegular(e: Exp, flags: Flags)
    ensures WellFormed(Setup(flags))
    ensures InitialDefined(e, Setup(flags))
    ensures forall g :: 0.0 < SteadyState(e, Absolute, g, RestPotential) < 1.0
  {
    forall g
      ensures SteadyStateDefined(e, Absolute, g, RestPotential)
      ensures 0.0 < SteadyState(e, Absolute, g, RestPotential) < 1.0
    {
      SteadyStateIsProbability(e, Absolute, g, RestPotential);
    }
  }

  /** With the clamp, and a steady-state start inside (0, 1), every gate
      sample of a run lies in [0, 1]. */
  lemma GatesAreProbabilities(e: Exp, flags: Flags, stim: seq<real>, t: Trace)
    requires WellFormed(Setup(flags)) && Follows(e, Setup(flags), stim, t)
    ensures forall g, k :: 0 <= k < |t.v| ==> 0.0 <= Track(t, g)[k] <= 1.0
  {
    RestIsRegular(e, flags);
    ClampedGatesStayInUnitInterval(e, Setup(flags), stim, t);
    assert Started(e, Setup(flags), t);
  }

  /** HH(i_inj, time_tot, N_active, M_active, H_active). A non-positive
      duration raises; otherwise the step current is built and the Euler
      loop runs. */
  method HH(e: Exp, iInj: real, timeTot: real, nActive: bool, mActive: bool, hActive: bool)
    returns (out: Outcome, current: seq<real>)
    ensures out.Raised? <==> timeTot <= 0.0
    ensures out.Raised? ==> out.error == if timeTot <= -DeltaT then NegativeDimensions else IndexOutOfRange
    ensures !out.NonFiniteAtRest?
    ensures !out.Raised? ==>
      && |current| == Samples(timeTot)
      && forall k :: 0 <= k < |current| ==> current[k] == if InWindow(|current|, k) then iInj else 0.0
    ensures out.Complete? ==>
      && |out.trace.v| == Samples(timeTot)
      && Follows(e, Setup(Flags(nActive, mActive, hActive)), current, out.trace)
    ensures out.PoleReached? ==>
      && out.at < Samples(timeTot) - 1
      && |out.trace.v| == out.at + 1
      && Follows(e, Setup(Flags(nActive, mActive, hActive)), current, out.trace)
      && !Regular(Absolute, out.trace.v[out.at])
    ensures out.Complete? || out.PoleReached? ==>
      forall g, k :: 0 <= k < |out.trace.v| ==> 0.0 <= Track(out.trace, g)[k] <= 1.0
  {
    var samples := Samples(timeTot);
    if samples < 0 {
      return Raised(NegativeDimensions), [];
    }
    if samples == 0 {
      return Raised(IndexOutOfRange), [];
    }
    current := StepCurrent(samples, iInj);
    var c := Setup(Flags(nActive, mActive, hActive));
    RestIsRegular(e, c.flags);
    out := Integrate(e, c, current);
    if out.Complete? || out.PoleReached? {
      GatesAreProbabilities(e, c.flags, current, out.trace);
    }
  }

  /** is_action_potential(i_inj, time_tot, threshold=15): simulates with
      every gate enabled, whatever flags the plots used, and compares the
      largest voltage with the threshold (DefaultThreshold when the caller
      gives none). No verdict comes only from a raise or from a pole the run
      actually reaches. */
  method IsActionPotential(e: Exp, iInj: real, timeTot: real, threshold: real) returns (verdict: Verdict)
    ensures verdict.NoVerdict? ==> verdict.outcome.Raised? || verdict.outcome.PoleReached?
    ensures verdict.NoVerdict? ==> (verdict.outcome.Raised? <==> timeTot <= 0.0)
    ensures verdict.NoVerdict? && verdict.outcome.PoleReached? ==>
      && |verdict.outcome.trace.v| == verdict.outcome.at + 1
      && Follows(e, Setup(AllActive), StepCurrent(Samples(timeTot), iInj), verdict.outcome.trace)
      && !Regular(Absolute, verdict.outcome.trace.v[verdict.outcome.at])
    ensures verdict.Fired? ==> timeTot > 0.0
    ensures verdict.Fired? ==>
      exists t :: Follows(e, Setup(AllActive), StepCurrent(Samples(timeTot), iInj), t) && |t.v| == Samples(timeTot)
    ensures verdict.NoVerdict? && verdict.outcome.PoleReached? ==> verdict.outcome.at < Samples(timeTot) - 1
    ensures verdict.Fired? ==> forall t ::
      Follows(e, Setup(AllActive), StepCurrent(Samples(timeTot), iInj), t) && |t.v| == Samples(timeTot) ==>
        (verdict.yes <==> exists k :: 0 <= k < |t.v| && t.v[k] >= threshold)
  {
    var out, current := HH(e, iInj, timeTot, true, true, true);
    if !out.Complete? {
      if !out.Raised? {
        assert current == StepCurrent(Samples(timeTot), iInj);
      }
      return NoVerdict(out);
    }
    var yes := Reaches(out.trace.v, threshold);
    RestIsRegular(e, AllActive);
    forall t | Follows(e, Setup(AllActive), StepCurrent(Samples(timeTot), iInj), t) && |t.v| == Samples(timeTot)
      ensures t == out.trace
    {
      assert current == StepCurrent(Samples(timeTot), iInj);
      FollowsIsDeterministic(e, Setup(AllActive), current, t, out.trace);
    }
    assert current == StepCurrent(Samples(timeTot), iInj);
    return Fired(yes);
  }
}
