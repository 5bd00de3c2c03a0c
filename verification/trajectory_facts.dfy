/** Properties of every run of the Euler loop, whatever the variant. */
module TrajectoryFacts {
  import opened Exponential
  import opened Kinetics
  import opened Euler

  /** Two runs of the same length agree up to sample k. */
  lemma {:induction false} AgreeUpTo(e: Exp, c: Config, stim: seq<real>, t1: Trace, t2: Trace, k: int)
    requires WellFormed(c) && Follows(e, c, stim, t1) && Follows(e, c, stim, t2)
    requires |t1.v| == |t2.v| && 0 <= k < |t1.v|
    ensures t1.v[k] == t2.v[k]
    ensures forall g :: Track(t1, g)[k] == Track(t2, g)[k]
    decreases k
  {
    if k == 0 {
      assert Started(e, c, t1) && Started(e, c, t2);
    } else {
      AgreeUpTo(e, c, stim, t1, t2, k - 1);
      StepKeepsAgreement(e, c, stim, t1, t2, k - 1);
    }
  }

  /** Samples that agree at i produce samples that agree at i + 1. */
  lemma StepKeepsAgreement(e: Exp, c: Config, stim: seq<real>, t1: Trace, t2: Trace, i: int)
    requires WellFormed(c) && Shaped(c, stim, t1) && Shaped(c, stim, t2)
    requires |t1.v| == |t2.v| && 0 <= i < |t1.v| - 1
    requires StepAt(e, c, stim, t1, i) && StepAt(e, c, stim, t2, i)
    requires t1.v[i] == t2.v[i] && forall g :: Track(t1, g)[i] == Track(t2, g)[i]
    ensures t1.v[i + 1] == t2.v[i + 1]
    ensures forall g :: Track(t1, g)[i + 1] == Track(t2, g)[i + 1]
  {
    assert t1.m[i] == t2.m[i] && t1.h[i] == t2.h[i] && t1.n[i] == t2.n[i] by {
      assert Track(t1, M)[i] == Track(t2, M)[i];
      assert Track(t1, H)[i] == Track(t2, H)[i];
      assert Track(t1, N)[i] == Track(t2, N)[i];
    }
    forall g
      ensures Track(t1, g)[i + 1] == Track(t2, g)[i + 1]
    {
      assert GateStepAt(e, c, t1, g, i) && GateStepAt(e, c, t2, g, i);
    }
  }

  /** The loop is deterministic: the inputs fix every sample of the run. */
  lemma FollowsIsDeterministic(e: Exp, c: Config, stim: seq<real>, t1: Trace, t2: Trace)
    requires WellFormed(c) && Follows(e, c, stim, t1) && Follows(e, c, stim, t2)
    requires |t1.v| == |t2.v|
    ensures t1 == t2
  {
    forall k | 0 <= k < |t1.v|
      ensures t1.v[k] == t2.v[k] && t1.m[k] == t2.m[k] && t1.h[k] == t2.h[k] && t1.n[k] == t2.n[k]
    {
      AgreeUpTo(e, c, stim, t1, t2, k);
      assert Track(t1, M)[k] == Track(t2, M)[k];
      assert Track(t1, H)[k] == Track(t2, H)[k];
      assert Track(t1, N)[k] == Track(t2, N)[k];
    }
    assert t1.time == t2.time;
  }

  /** With the clamp, every gate sample after the first lies in [0, 1]. */
  lemma ClampedGatesStayInUnitInterval(e: Exp, c: Config, stim: seq<real>, t: Trace)
    requires WellFormed(c) && c.clamp && Follows(e, c, stim, t)
    ensures forall g, k :: 1 <= k < |t.v| ==> 0.0 <= Track(t, g)[k] <= 1.0
  {
    forall g, k | 1 <= k < |t.v|
      ensures 0.0 <= Track(t, g)[k] <= 1.0
    {
      assert StepAt(e, c, stim, t, k - 1);
      assert GateStepAt(e, c, t, g, k - 1);
    }
  }

  /** A disabled gate holds 1 at every sample but the last; the last is the
      Euler step from 1, which lies strictly below 1 because beta is
      positive. A one-sample run never enters the loop, so there the gate
      keeps its steady state. */
  lemma DisabledGateHeldOpen(e: Exp, c: Config, stim: seq<real>, t: Trace, g: Gate)
    requires WellFormed(c) && Follows(e, c, stim, t) && !Active(c.flags, g)
    ensures forall k :: 0 <= k < |t.v| - 1 ==> Track(t, g)[k] == 1.0
    ensures |t.v| >= 2 ==>
      && Regular(c.rates, t.v[|t.v| - 2])
      && Track(t, g)[|t.v| - 1] == GateNext(e, c, g, t.v[|t.v| - 2], 1.0)
      && Track(t, g)[|t.v| - 1] < 1.0
    ensures |t.v| == 1 ==> Track(t, g)[0] == SteadyState(e, c.rates, g, c.v0)
  {
    var len := |t.v|;
    assert Started(e, c, t);
    forall k | 1 <= k < len - 1
      ensures Track(t, g)[k] == 1.0
    {
      assert StepAt(e, c, stim, t, k - 1);
      assert GateStepAt(e, c, t, g, k - 1);
    }
    if len >= 2 {
      assert StepAt(e, c, stim, t, len - 2);
      assert GateStepAt(e, c, t, g, len - 2);
      StepFromOpenCloses(e, c, g, t.v[len - 2]);
    }
  }

  /** An Euler step from a fully open gate always lowers it: the drift at 1
      is -beta. */
  lemma StepFromOpenCloses(e: Exp, c: Config, g: Gate, v: real)
    requires WellFormed(c) && Regular(c.rates, v)
    ensures GateNext(e, c, g, v, 1.0) < 1.0
  {
    var b := Beta(e, c.rates, g, v);
    var raw := 1.0 + c.dt * Drift(e, c.rates, g, v, 1.0);
    assert raw == 1.0 - c.dt * b;
    assert c.dt * b > 0.0;
    if c.clamp {
      assert Dist(Clamp(raw), raw) <= Dist(0.0, raw);
    }
  }

  /** An enabled gate is never overwritten: it starts at its steady state and
      every later sample is the Euler step from the one before. */
  lemma EnabledGateFollowsEuler(e: Exp, c: Config, stim: seq<real>, t: Trace, g: Gate)
    requires WellFormed(c) && Follows(e, c, stim, t) && Active(c.flags, g)
    ensures Track(t, g)[0] == SteadyState(e, c.rates, g, c.v0)
    ensures forall i :: 0 <= i < |t.v| - 1 ==>
      Regular(c.rates, t.v[i]) && Track(t, g)[i + 1] == GateNext(e, c, g, t.v[i], Track(t, g)[i])
  {
    assert Started(e, c, t);
    forall i | 0 <= i < |t.v| - 1
      ensures Regular(c.rates, t.v[i]) && Track(t, g)[i + 1] == GateNext(e, c, g, t.v[i], Track(t, g)[i])
    {
      assert StepAt(e, c, stim, t, i);
      assert GateStepAt(e, c, t, g, i);
    }
  }

  /** The first gate increment is zero: an enabled gate starting at its
      steady state keeps that value at sample 1 (for clamping variants,
      provided the steady state is a probability). */
  lemma FirstStepKeepsSteadyState(e: Exp, c: Config, stim: seq<real>, t: Trace, g: Gate)
    requires WellFormed(c) && Follows(e, c, stim, t) && Active(c.flags, g) && |t.v| >= 2
    requires c.clamp ==> SteadyStateDefined(e, c.rates, g, c.v0) && 0.0 <= SteadyState(e, c.rates, g, c.v0) <= 1.0
    ensures Track(t, g)[1] == Track(t, g)[0]
  {
    EnabledGateFollowsEuler(e, c, stim, t, g);
    SteadyStateIsFixedPoint(e, c.rates, g, c.v0);
  }

  /** Dropping the clamp changes nothing on a run whose gates already lie in
      [0, 1]: such an unclamped run is also the clamped run. */
  lemma UnclampedRunInRangeIsClamped(e: Exp, c: Config, stim: seq<real>, t: Trace)
    requires WellFormed(c) && !c.clamp && Follows(e, c, stim, t)
    requires forall g, k :: 0 <= k < |t.v| ==> 0.0 <= Track(t, g)[k] <= 1.0
    ensures Follows(e, c.(clamp := true), stim, t)
  {
    var c' := c.(clamp := true);
    assert Shaped(c', stim, t);
    assert Started(e, c, t);
    assert Started(e, c', t);
    forall i | 0 <= i < |t.v| - 1
      ensures StepAt(e, c', stim, t, i)
    {
      assert StepAt(e, c, stim, t, i);
      UnclampedStepIsClamped(e, c, stim, t, i);
    }
  }

  lemma UnclampedStepIsClamped(e: Exp, c: Config, stim: seq<real>, t: Trace, i: int)
    requires WellFormed(c) && !c.clamp && Shaped(c, stim, t) && 0 <= i < |t.v| - 1
    requires StepAt(e, c, stim, t, i)
    requires forall g :: 0.0 <= Track(t, g)[i + 1] <= 1.0
    ensures StepAt(e, c.(clamp := true), stim, t, i)
  {
    var c' := c.(clamp := true);
    assert Shaped(c', stim, t);
    assert VNext(c', t.v[i], t.m[i], t.h[i], t.n[i], stim[i]) == VNext(c, t.v[i], t.m[i], t.h[i], t.n[i], stim[i]);
    forall g
      ensures GateStepAt(e, c', t, g, i)
    {
      assert GateStepAt(e, c, t, g, i);
      if !Overridden(c, g, i + 1, |t.v|) {
        ClampIsInert(e, c, g, t.v[i], Track(t, g)[i]);
      }
    }
  }

  /** Where the unclamped gate step lands in [0, 1], clamping it is a no-op. */
  lemma ClampIsInert(e: Exp, c: Config, g: Gate, v: real, x: real)
    requires WellFormed(c) && !c.clamp && Regular(c.rates, v)
    requires 0.0 <= GateNext(e, c, g, v, x) <= 1.0
    ensures GateNext(e, c.(clamp := true), g, v, x) == GateNext(e, c, g, v, x)
  {
  }
}
