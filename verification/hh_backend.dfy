/** HH_backend.py: the engine of the older GUI. The same constants, rates,
    time step and stimulus as HH_back.py, but no clamp and no gate flags, and
    the injected current is not returned. */
module HHBackend {
  import opened Exponential
  import opened Kinetics
  import opened Euler
  import opened Sampling
  import opened TrajectoryFacts
  import opened Threshold
  import HHBack

  /** The threshold is fixed at 15 mV in this variant. */
  const FixedThreshold: real := 15.0

  const Setup: Config := Config(HHBack.Constants, Absolute, HHBack.DeltaT, HHBack.RestPotential, false, AllActive, false)

  /** HH(i_inj, time_tot). */
  method HH(e: Exp, iInj: real, timeTot: real) returns (out: Outcome)
    ensures out.Raised? <==> timeTot <= 0.0
    ensures out.Raised? ==> out.error == if timeTot <= -HHBack.DeltaT then NegativeDimensions else IndexOutOfRange
    ensures !out.NonFiniteAtRest?
    ensures out.Complete? ==>
      && |out.trace.v| == HHBack.Samples(timeTot)
      && Follows(e, Setup, StepCurrent(HHBack.Samples(timeTot), iInj), out.trace)
    ensures out.PoleReached? ==>
      && out.at < HHBack.Samples(timeTot) - 1
      && |out.trace.v| == out.at + 1
      && Follows(e, Setup, StepCurrent(HHBack.Samples(timeTot), iInj), out.trace)
      && !Regular(Absolute, out.trace.v[out.at])
  {
    var samples := HHBack.Samples(timeTot);
    if samples < 0 {
      return Raised(NegativeDimensions);
    }
    if samples == 0 {
      return Raised(IndexOutOfRange);
    }
    var current := StepCurrent(samples, iInj);
    HHBack.RestIsRegular(e, AllActive);
    out := Integrate(e, Setup, current);
  }

  /** Without the clamp the first gate increment is still zero: every gate
      keeps its steady state at sample 1. */
  lemma GatesStartAtRest(e: Exp, stim: seq<real>, t: Trace, g: Gate)
    requires Follows(e, Setup, stim, t) && |t.v| >= 2
    ensures Track(t, g)[1] == Track(t, g)[0]
    ensures Track(t, g)[0] == SteadyState(e, Absolute, g, HHBack.RestPotential)
  {
    HHBack.RestIsRegular(e, AllActive);
    FirstStepKeepsSteadyState(e, Setup, stim, t, g);
    EnabledGateFollowsEuler(e, Setup, stim, t, g);
  }

  /** When every gate value of this variant's run already lies in [0, 1],
      its trace is the one HH_back.py computes with every gate enabled. */
  lemma MatchesBackWhileGatesInRange(e: Exp, stim: seq<real>, t: Trace, back: Trace)
    requires Follows(e, Setup, stim, t)
    requires forall g, k :: 0 <= k < |t.v| ==> 0.0 <= Track(t, g)[k] <= 1.0
    requires Follows(e, HHBack.Setup(AllActive), stim, back) && |back.v| == |t.v|
    ensures back == t
  {
    assert Setup.(clamp := true) == HHBack.Setup(AllActive);
    UnclampedRunInRangeIsClamped(e, Setup, stim, t);
    FollowsIsDeterministic(e, HHBack.Setup(AllActive), stim, back, t);
  }

  /** is_action_potential(i_inj, time_tot): max V >= 15. No verdict comes
      only from a raise or from a pole the run actually reaches. */
  method IsActionPotential(e: Exp, iInj: real, timeTot: real) returns (verdict: Verdict)
    ensures verdict.NoVerdict? ==> verdict.outcome.Raised? || verdict.outcome.PoleReached?
    ensures verdict.NoVerdict? ==> (verdict.outcome.Raised? <==> timeTot <= 0.0)
    ensures verdict.NoVerdict? && verdict.outcome.PoleReached? ==>
      && |verdict.outcome.trace.v| == verdict.outcome.at + 1
      && Follows(e, Setup, StepCurrent(HHBack.Samples(timeTot), iInj), verdict.outcome.trace)
      && !Regular(Absolute, verdict.outcome.trace.v[verdict.outcome.at])
    ensures verdict.Fired? ==> timeTot > 0.0
    ensures verdict.Fired? ==>
      exists t :: Follows(e, Setup, StepCurrent(HHBack.Samples(timeTot), iInj), t) && |t.v| == HHBack.Samples(timeTot)
    ensures verdict.NoVerdict? && verdict.outcome.PoleReached? ==> verdict.outcome.at < HHBack.Samples(timeTot) - 1
    ensures verdict.Fired? ==> forall t ::
      Follows(e, Setup, StepCurrent(HHBack.Samples(timeTot), iInj), t) && |t.v| == HHBack.Samples(timeTot) ==>
        (verdict.yes <==> exists k :: 0 <= k < |t.v| && t.v[k] >= FixedThreshold)
  {
    var out := HH(e, iInj, timeTot);
    if !out.Complete? {
      return NoVerdict(out);
    }
    var yes := Reaches(out.trace.v, FixedThreshold);
    forall t | Follows(e, Setup, StepCurrent(HHBack.Samples(timeTot), iInj), t) && |t.v| == HHBack.Samples(timeTot)
      ensures t == out.trace
    {
      FollowsIsDeterministic(e, Setup, StepCurrent(HHBack.Samples(timeTot), iInj), t, out.trace);
    }
    return Fired(yes);
  }
}
