/** old_HH.py: the rest-relative variant. Reversal potentials and the initial
    voltage are offsets of the `rest_potential` parameter, the rates take the
    voltage as it is, DeltaT = 0.01 ms, no clamp and no gate flags, and the
    voltage update is written with inward driving forces E - V. */
module OldHH {
  import opened Exponential
  import opened Kinetics
  import opened Euler
  import opened Sampling
  import opened TrajectoryFacts
  import RestRates

  const DeltaT: real := 0.01

  /** rest_potential when the caller gives none: voltages are then measured
      from 0 mV. */
  const DefaultRest: real := 0.0

  function Constants(rest: real): Membrane
  {
    Membrane(36.0, 120.0, 0.3, rest - 12.0, rest + 115.0, rest + 10.613, 1.0)
  }

  function Setup(rest: real): Config
  {
    Config(Constants(rest), RestRelative, DeltaT, rest, false, AllActive, true)
  }

  /** samples = ceil(time_tot / 0.01). */
  function Samples(timeTot: real): int
  {
    SampleCount(timeTot, DeltaT)
  }

  /** The initial gates are defined unless rest_potential sits on a pole of
      alphaN (10 mV) or alphaM (25 mV), and then each lies inside (0, 1). */
  lemma RestSteadyStates(e: Exp, rest: real)
    ensures InitialDefined(e, Setup(rest)) <==> rest != RestRates.AlphaNPole && rest != RestRates.AlphaMPole
    ensures InitialDefined(e, Setup(rest)) ==> forall g :: 0.0 < SteadyState(e, RestRelative, g, rest) < 1.0
  {
    if rest != RestRates.AlphaNPole && rest != RestRates.AlphaMPole {
      forall g
        ensures SteadyStateDefined(e, RestRelative, g, rest)
        ensures 0.0 < SteadyState(e, RestRelative, g, rest) < 1.0
      {
        SteadyStateIsProbability(e, RestRelative, g, rest);
      }
    } else {
      assert !SteadyStateDefined(e, RestRelative, M, rest);
    }
  }

  /** HH(i_inj, time_tot, rest_potential=0); the default is DefaultRest. */
  method HH(e: Exp, iInj: real, timeTot: real, rest: real) returns (out: Outcome)
    ensures out.Raised? <==> timeTot <= 0.0
    ensures out.Raised? ==> out.error == if timeTot <= -DeltaT then NegativeDimensions else IndexOutOfRange
    ensures out.NonFiniteAtRest? <==> timeTot > 0.0 && (rest == RestRates.AlphaNPole || rest == RestRates.AlphaMPole)
    ensures out.Complete? ==>
      && |out.trace.v| == Samples(timeTot)
      && Follows(e, Setup(rest), StepCurrent(Samples(timeTot), iInj), out.trace)
    ensures out.PoleReached? ==>
      && out.at < Samples(timeTot) - 1
      && |out.trace.v| == out.at + 1
      && Follows(e, Setup(rest), StepCurrent(Samples(timeTot), iInj), out.trace)
      && !Regular(RestRelative, out.trace.v[out.at])
  {
    var samples := Samples(timeTot);
    if samples < 0 {
      return Raised(NegativeDimensions);
    }
    if samples == 0 {
      return Raised(IndexOutOfRange);
    }
    var current := StepCurrent(samples, iInj);
    RestSteadyStates(e, rest);
    out := Integrate(e, Setup(rest), current);
  }

  /** The voltage equation is translation-invariant in rest_potential: moving
      rest, the reversal potentials and V together moves V[i+1] by the same
      amount. Only the rates, which see V itself, break the symmetry. */
  lemma VoltageStepIsShiftEquivariant(rest: real, u: real, m: real, h: real, n: real, i: real)
    ensures VNext(Setup(rest), rest + u, m, h, n, i) == rest + VNext(Setup(0.0), u, m, h, n, i)
  {
    var a, b := Constants(rest), Constants(0.0);
    assert a.eK - (rest + u) == b.eK - u;
    assert a.eNa - (rest + u) == b.eNa - u;
    assert a.eL - (rest + u) == b.eL - u;
    assert InwardCurrent(a, rest + u, m, h, n, i) == InwardCurrent(b, u, m, h, n, i);
  }

  /** Every step of this variant equals the step written with outward
      currents V - E, as in the other two variants. */
  lemma StepMatchesOutwardForm(rest: real, v: real, m: real, h: real, n: real, i: real)
    ensures VNext(Setup(rest), v, m, h, n, i) == VNext(Setup(rest).(inward := false), v, m, h, n, i)
  {
    InwardMatchesOutward(Setup(rest), v, m, h, n, i);
  }

  /** As in the other variants the first gate increment is zero. */
  lemma GatesStartAtRest(e: Exp, rest: real, stim: seq<real>, t: Trace, g: Gate)
    requires Follows(e, Setup(rest), stim, t) && |t.v| >= 2
    ensures Track(t, g)[1] == Track(t, g)[0]
    ensures Track(t, g)[0] == SteadyState(e, RestRelative, g, rest)
  {
    FirstStepKeepsSteadyState(e, Setup(rest), stim, t, g);
    EnabledGateFollowsEuler(e, Setup(rest), stim, t, g);
  }
}
