/** The forward-Euler integrator shared by the three variants of `HH`. A
    `Config` fixes what differs between them: membrane constants, rate table,
    time step, initial voltage, whether gate updates are clamped, which gates
    are enabled, and in which algebraic form the voltage update is written. */
module Euler {
  import opened Exponential
  import opened Kinetics
  import Sampling

  /** Maximal conductances (mS/cm^2), reversal potentials (mV) and membrane
      capacitance (microF/cm^2). */
  datatype Membrane = Membrane(gK: real, gNa: real, gL: real, eK: real, eNa: real, eL: real, cm: real)

  /** Per-gate enable flags; a disabled gate is held at 1. */
  datatype Flags = Flags(nActive: bool, mActive: bool, hActive: bool)

  const AllActive: Flags := Flags(true, true, true)

  datatype Config = Config(
    membrane: Membrane,
    rates: RateSet,
    dt: real,
    v0: real,
    clamp: bool,
    flags: Flags,
    inward: bool)

  predicate WellFormed(c: Config)
  {
    c.dt > 0.0 && c.membrane.cm > 0.0
  }

  function Active(f: Flags, g: Gate): bool
  {
    match g
    case M => f.mActive
    case H => f.hActive
    case N => f.nActive
  }

  /** A simulated trajectory: the time axis and four index-aligned series. */
  datatype Trace = Trace(time: seq<real>, v: seq<real>, m: seq<real>, h: seq<real>, n: seq<real>)

  function Track(t: Trace, g: Gate): seq<real>
  {
    match g
    case M => t.m
    case H => t.h
    case N => t.n
  }

  /** The exceptions the source raises for a non-positive duration:
      np.zeros of a negative size, or the write to V[0] of an empty array. */
  datatype PyError = NegativeDimensions | IndexOutOfRange

  /** Result of one call of `HH`. `NonFiniteAtRest` and `PoleReached` mark
      the points at which numpy would start producing NaN or infinity (a rate
      evaluated exactly at a zero of its denominator); the model stops there
      and reports the samples computed so far. */
  datatype Outcome =
    | Raised(error: PyError)
    | NonFiniteAtRest
    | PoleReached(at: nat, trace: Trace)
    | Complete(trace: Trace)

  function Cube(x: real): real { x * x * x }

  function Fourth(x: real): real { x * x * x * x }

  /** dV/dt written as in HH_back.py and HH_backend.py: the stimulus minus the
      outward ionic currents g (V - E) times their gating terms. */
  function OutwardSlope(mb: Membrane, v: real, m: real, h: real, n: real, i: real): real
    requires mb.cm > 0.0
  {
    (i - mb.gNa * (v - mb.eNa) * Cube(m) * h - mb.gK * (v - mb.eK) * Fourth(n) - mb.gL * (v - mb.eL)) / mb.cm
  }

  /** I_tot written as in old_HH.py: inward driving forces E - V. */
  function InwardCurrent(mb: Membrane, v: real, m: real, h: real, n: real, i: real): real
  {
    mb.gK * Fourth(n) * (mb.eK - v) + mb.gNa * Cube(m) * h * (mb.eNa - v) + mb.gL * (mb.eL - v) + i
  }

  /** V[i+1] from the sample-i values. */
  function VNext(c: Config, v: real, m: real, h: real, n: real, i: real): real
    requires WellFormed(c)
  {
    if c.inward then v + c.dt * InwardCurrent(c.membrane, v, m, h, n, i) / c.membrane.cm
    else v + OutwardSlope(c.membrane, v, m, h, n, i) * c.dt
  }

  /** gate[i+1] from the pre-step voltage V[i] and gate[i], clamped into
      [0, 1] when the variant clamps. */
  function GateNext(e: Exp, c: Config, g: Gate, v: real, x: real): real
    requires Regular(c.rates, v)
  {
    var raw := x + c.dt * Drift(e, c.rates, g, v, x);
    if c.clamp then Clamp(raw) else raw
  }

  /** Both ways of writing the voltage update give the same value. */
  lemma InwardMatchesOutward(c: Config, v: real, m: real, h: real, n: real, i: real)
    requires WellFormed(c)
    ensures VNext(c.(inward := true), v, m, h, n, i) == VNext(c.(inward := false), v, m, h, n, i)
  {
    var mb := c.membrane;
    var x := InwardCurrent(mb, v, m, h, n, i);
    var y := i - mb.gNa * (v - mb.eNa) * Cube(m) * h - mb.gK * (v - mb.eK) * Fourth(n) - mb.gL * (v - mb.eL);
    assert x == y;
    assert c.dt * x / mb.cm == (x / mb.cm) * c.dt;
  }

  /** Every gate's initial steady state can be evaluated at v0. */
  predicate InitialDefined(e: Exp, c: Config)
  {
    forall g :: SteadyStateDefined(e, c.rates, g, c.v0)
  }

  /** Whether the value stored at sample k of a length-L run was overwritten
      with 1: a disabled gate is forced open at the start of every loop
      iteration, i.e. at every sample but the last. */
  predicate Overridden(c: Config, g: Gate, k: int, len: int)
  {
    !Active(c.flags, g) && k < len - 1
  }

  /** Lengths and time axis of a run that has filled `|t.v|` samples. */
  ghost predicate Shaped(c: Config, stim: seq<real>, t: Trace)
  {
    var len := |t.v|;
    && 1 <= len <= |stim|
    && |t.time| == len && |t.m| == len && |t.h| == len && |t.n| == len
    && (forall k :: 0 <= k < len ==> t.time[k] == k as real * c.dt)
  }

  /** Sample 0: the initial voltage, and each gate at its steady state
      there, or at 1 if it is disabled and a loop iteration has run. */
  ghost predicate Started(e: Exp, c: Config, t: Trace)
    requires |t.v| >= 1 && |t.m| == |t.h| == |t.n| == |t.v|
  {
    && t.v[0] == c.v0
    && InitialDefined(e, c)
    && (forall g :: Track(t, g)[0] == if Overridden(c, g, 0, |t.v|) then 1.0 else SteadyState(e, c.rates, g, c.v0))
  }

  /** Gate g at sample i + 1: forced to 1, or the Euler step from sample i. */
  ghost predicate GateStepAt(e: Exp, c: Config, t: Trace, g: Gate, i: int)
    requires WellFormed(c) && 0 <= i < |t.v| - 1 && |t.m| == |t.h| == |t.n| == |t.v|
    requires Regular(c.rates, t.v[i])
  {
    Track(t, g)[i + 1] == if Overridden(c, g, i + 1, |t.v|) then 1.0 else GateNext(e, c, g, t.v[i], Track(t, g)[i])
  }

  /** Loop iteration i: the rates are defined at V[i], and sample i + 1 is the
      Euler step from sample i. */
  ghost predicate StepAt(e: Exp, c: Config, stim: seq<real>, t: Trace, i: int)
    requires WellFormed(c) && Shaped(c, stim, t) && 0 <= i < |t.v| - 1
  {
    && Regular(c.rates, t.v[i])
    && t.v[i + 1] == VNext(c, t.v[i], t.m[i], t.h[i], t.n[i], stim[i])
    && GateStepAt(e, c, t, M, i)
    && GateStepAt(e, c, t, H, i)
    && GateStepAt(e, c, t, N, i)
  }

  /** What the arrays hold after the loop of `HH` has filled `|t.v|`
      samples: the initial state, then one Euler step per sample, with the
      gate overrides applied to every sample but the last. */
  ghost predicate Follows(e: Exp, c: Config, stim: seq<real>, t: Trace)
    requires WellFormed(c)
  {
    && Shaped(c, stim, t)
    && Started(e, c, t)
    && forall i :: 0 <= i < |t.v| - 1 ==> StepAt(e, c, stim, t, i)
  }

  /** The value a gate enters an Euler step with: its stored value, or 1 when
      the gate is disabled. */
  function Opened(c: Config, g: Gate, x: real): real
  {
    if Active(c.flags, g) then x else 1.0
  }

  /** One more iteration of the loop of `HH`: overwrite the disabled gates at
      the last sample, then append the Euler step from it. */
  function Extend(e: Exp, c: Config, stim: seq<real>, t: Trace): (t': Trace)
    requires WellFormed(c) && Follows(e, c, stim, t) && |t.v| < |stim|
    requires Regular(c.rates, t.v[|t.v| - 1])
  {
    var k := |t.v| - 1;
    var m, h, n := Opened(c, M, t.m[k]), Opened(c, H, t.h[k]), Opened(c, N, t.n[k]);
    Trace(
      t.time + [(k + 1) as real * c.dt],
      t.v + [VNext(c, t.v[k], m, h, n, stim[k])],
      t.m[..k] + [m, GateNext(e, c, M, t.v[k], m)],
      t.h[..k] + [h, GateNext(e, c, H, t.v[k], h)],
      t.n[..k] + [n, GateNext(e, c, N, t.v[k], n)])
  }

  lemma ExtendStarted(e: Exp, c: Config, stim: seq<real>, t: Trace)
    requires WellFormed(c) && Follows(e, c, stim, t) && |t.v| < |stim|
    requires Regular(c.rates, t.v[|t.v| - 1])
    ensures Shaped(c, stim, Extend(e, c, stim, t))
    ensures Started(e, c, Extend(e, c, stim, t))
  {
    var t' := Extend(e, c, stim, t);
    var len := |t.v|;
    var k := len - 1;
    forall g
      ensures Track(t', g)[0] == if Overridden(c, g, 0, len + 1) then 1.0 else SteadyState(e, c.rates, g, c.v0)
    {
      assert Track(t, g)[0] == if Overridden(c, g, 0, len) then 1.0 else SteadyState(e, c.rates, g, c.v0);
    }
  }

  lemma ExtendStep(e: Exp, c: Config, stim: seq<real>, t: Trace, i: int)
    requires WellFormed(c) && Follows(e, c, stim, t) && |t.v| < |stim|
    requires Regular(c.rates, t.v[|t.v| - 1])
    requires Shaped(c, stim, Extend(e, c, stim, t))
    requires 0 <= i < |t.v|
    ensures StepAt(e, c, stim, Extend(e, c, stim, t), i)
  {
    var t' := Extend(e, c, stim, t);
    var k := |t.v| - 1;
    if i < k {
      assert StepAt(e, c, stim, t, i);
      forall g
        ensures GateStepAt(e, c, t', g, i)
      {
        assert GateStepAt(e, c, t, g, i);
        assert Track(t', g)[i] == Track(t, g)[i];
        if i + 1 < k {
          assert Track(t', g)[i + 1] == Track(t, g)[i + 1];
        }
      }
    }
  }

  lemma ExtendFollows(e: Exp, c: Config, stim: seq<real>, t: Trace)
    requires WellFormed(c) && Follows(e, c, stim, t) && |t.v| < |stim|
    requires Regular(c.rates, t.v[|t.v| - 1])
    ensures Follows(e, c, stim, Extend(e, c, stim, t))
    ensures |Extend(e, c, stim, t).v| == |t.v| + 1
  {
    ExtendStarted(e, c, stim, t);
    forall i | 0 <= i < |t.v|
      ensures StepAt(e, c, stim, Extend(e, c, stim, t), i)
    {
      ExtendStep(e, c, stim, t, i);
    }
  }

  /** The run before the first loop iteration. */
  function Initial(e: Exp, c: Config): (t: Trace)
    requires InitialDefined(e, c)
  {
    Trace([0.0], [c.v0], [SteadyState(e, c.rates, M, c.v0)], [SteadyState(e, c.rates, H, c.v0)],
          [SteadyState(e, c.rates, N, c.v0)])
  }

  lemma InitialFollows(e: Exp, c: Config, stim: seq<real>)
    requires WellFormed(c) && InitialDefined(e, c) && |stim| >= 1
    ensures Follows(e, c, stim, Initial(e, c))
  {
    var t := Initial(e, c);
    assert Shaped(c, stim, t);
    forall g
      ensures Track(t, g)[0] == if Overridden(c, g, 0, 1) then 1.0 else SteadyState(e, c.rates, g, c.v0)
    {
    }
  }

  /** Runs the loop of `HH`: from the steady state at v0, one iteration per
      sample (override the disabled gates, then take the Euler step), until
      the last sample or until a voltage hits a pole of the rate table. */
  method Integrate(e: Exp, c: Config, stim: seq<real>) returns (out: Outcome)
    requires WellFormed(c) && |stim| >= 1
    ensures !out.Raised?
    ensures out.NonFiniteAtRest? <==> !InitialDefined(e, c)
    ensures out.Complete? ==> |out.trace.v| == |stim| && Follows(e, c, stim, out.trace)
    ensures out.PoleReached? ==>
      && out.at < |stim| - 1
      && |out.trace.v| == out.at + 1
      && Follows(e, c, stim, out.trace)
      && !Regular(c.rates, out.trace.v[out.at])
  {
    if !(SteadyStateDefined(e, c.rates, M, c.v0) && SteadyStateDefined(e, c.rates, H, c.v0)
         && SteadyStateDefined(e, c.rates, N, c.v0)) {
      return NonFiniteAtRest;
    }
    assert InitialDefined(e, c) by {
      forall g ensures SteadyStateDefined(e, c.rates, g, c.v0) {
        match g
        case M =>
        case H =>
        case N =>
      }
    }
    var t := Initial(e, c);
    InitialFollows(e, c, stim);
    while |t.v| < |stim|
      invariant Follows(e, c, stim, t)
      decreases |stim| - |t.v|
    {
      if !Regular(c.rates, t.v[|t.v| - 1]) {
        return PoleReached(|t.v| - 1, t);
      }
      ExtendFollows(e, c, stim, t);
      t := Extend(e, c, stim, t);
    }
    return Complete(t);
  }
}
