/** Gate kinetics shared by every variant: which rate table is in use, the
    steady-state value of a gate, the Euler drift of a gate and the clamp of
    HH_back.py. */
module Kinetics {
  import opened Exponential
  import AbsoluteRates
  import RestRates

  /** The three gating variables: sodium activation M, sodium inactivation H
      and potassium activation N. */
  datatype Gate = M | H | N

  /** The rate tables: the absolute one of HH_back.py and HH_backend.py as
      written, the same with the intended alphaN, and the rest-relative one
      of old_HH.py. */
  datatype RateSet = Absolute | AbsoluteIntended | RestRelative

  /** A voltage at which every rate of the table has a non-zero denominator. */
  predicate Regular(rs: RateSet, v: real)
  {
    match rs
    case Absolute => v != AbsoluteRates.AlphaNPole && v != AbsoluteRates.AlphaMPole
    case AbsoluteIntended => v != -55.0 && v != AbsoluteRates.AlphaMPole
    case RestRelative => v != RestRates.AlphaNPole && v != RestRates.AlphaMPole
  }

  function Alpha(e: Exp, rs: RateSet, g: Gate, v: real): (r: real)
    requires Regular(rs, v)
    ensures rs == Absolute && g == N ==> (r > 0.0 <==> v < -55.0 || v > -50.0)
    ensures rs != Absolute || g != N ==> r > 0.0
  {
    match (rs, g)
    case (Absolute, M) => AbsoluteRates.AlphaM(e, v)
    case (Absolute, H) => AbsoluteRates.AlphaH(e, v)
    case (Absolute, N) => AbsoluteRates.AlphaN(e, v)
    case (AbsoluteIntended, M) => AbsoluteRates.AlphaM(e, v)
    case (AbsoluteIntended, H) => AbsoluteRates.AlphaH(e, v)
    case (AbsoluteIntended, N) => AbsoluteRates.AlphaNIntended(e, v)
    case (RestRelative, M) => RestRates.AlphaM(e, v)
    case (RestRelative, H) => RestRates.AlphaH(e, v)
    case (RestRelative, N) => RestRates.AlphaN(e, v)
  }

  function Beta(e: Exp, rs: RateSet, g: Gate, v: real): (r: real)
    ensures r > 0.0
  {
    match (rs, g)
    case (RestRelative, M) => RestRates.BetaM(e, v)
    case (RestRelative, H) => RestRates.BetaH(e, v)
    case (RestRelative, N) => RestRates.BetaN(e, v)
    case (_, M) => AbsoluteRates.BetaM(e, v)
    case (_, H) => AbsoluteRates.BetaH(e, v)
    case (_, N) => AbsoluteRates.BetaN(e, v)
  }

  /** alpha + beta can vanish only for the as-written alphaN, which is
      negative on (-55, -50). */
  predicate SteadyStateDefined(e: Exp, rs: RateSet, g: Gate, v: real)
  {
    Regular(rs, v) && Alpha(e, rs, g, v) + Beta(e, rs, g, v) != 0.0
  }

  /** alpha / (alpha + beta): the value a gate settles at under a fixed voltage. */
  function SteadyState(e: Exp, rs: RateSet, g: Gate, v: real): real
    requires SteadyStateDefined(e, rs, g, v)
  {
    Alpha(e, rs, g, v) / (Alpha(e, rs, g, v) + Beta(e, rs, g, v))
  }

  /** The right-hand side of a gate's equation: alpha (1 - x) - beta x. */
  function Drift(e: Exp, rs: RateSet, g: Gate, v: real, x: real): real
    requires Regular(rs, v)
  {
    Alpha(e, rs, g, v) * (1.0 - x) - Beta(e, rs, g, v) * x
  }

  /** min(max(x, 0), 1): the point of [0, 1] nearest to x. */
  function Clamp(x: real): (r: real)
    ensures 0.0 <= r <= 1.0
    ensures r == x <==> 0.0 <= x <= 1.0
    ensures forall y :: 0.0 <= y <= 1.0 ==> Dist(r, x) <= Dist(y, x)
  {
    if x < 0.0 then 0.0 else if x > 1.0 then 1.0 else x
  }

  function Dist(a: real, b: real): real
  {
    if a < b then b - a else a - b
  }

  /** The steady state is a zero of the drift: an Euler step from it does
      not move the gate. */
  lemma SteadyStateIsFixedPoint(e: Exp, rs: RateSet, g: Gate, v: real)
    requires SteadyStateDefined(e, rs, g, v)
    ensures Drift(e, rs, g, v, SteadyState(e, rs, g, v)) == 0.0
  {
    var a, b := Alpha(e, rs, g, v), Beta(e, rs, g, v);
    var s := a / (a + b);
    assert s * (a + b) == a;
    assert a * (1.0 - s) - b * s == a - s * (a + b);
  }

  /** Where alpha is non-negative the steady state is a probability; where
      alpha is positive it lies strictly inside (0, 1). */
  lemma SteadyStateIsProbability(e: Exp, rs: RateSet, g: Gate, v: real)
    requires Regular(rs, v) && Alpha(e, rs, g, v) >= 0.0
    ensures SteadyStateDefined(e, rs, g, v)
    ensures 0.0 <= SteadyState(e, rs, g, v) < 1.0
    ensures Alpha(e, rs, g, v) > 0.0 ==> 0.0 < SteadyState(e, rs, g, v)
  {
    FractionBounds(Alpha(e, rs, g, v), Beta(e, rs, g, v));
  }

  lemma FractionBounds(a: real, b: real)
    requires a >= 0.0 && b > 0.0
    ensures a + b != 0.0
    ensures 0.0 <= a / (a + b) < 1.0
    ensures a > 0.0 ==> 0.0 < a / (a + b)
  {
    var s := a / (a + b);
    assert s * (a + b) == a;
    QuotientSign(a, a + b);
    var t := b / (a + b);
    assert t * (a + b) == b;
    assert (s + t) * (a + b) == a + b;
    assert s + t == 1.0;
    QuotientSign(b, a + b);
  }
}
