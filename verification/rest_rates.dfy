/** The six gate rate functions of old_HH.py. Their argument is a voltage
    measured from a resting potential of 0 mV (the classic Hodgkin-Huxley
    convention); they do not see the `rest_potential` parameter at all. */
module RestRates {
  import opened Exponential
  import AbsoluteRates

  /** Voltage at which the denominator of alphaN vanishes. */
  const AlphaNPole: real := 10.0
  /** Voltage at which the denominator of alphaM vanishes. */
  const AlphaMPole: real := 25.0

  function AlphaNDenominator(e: Exp, v: real): real
  {
    100.0 * (e((10.0 - v) / 10.0) - 1.0)
  }

  function AlphaN(e: Exp, v: real): (r: real)
    requires v != AlphaNPole
    ensures r > 0.0
  {
    QuotientSign(10.0 - v, AlphaNDenominator(e, v));
    (10.0 - v) / AlphaNDenominator(e, v)
  }

  function BetaN(e: Exp, v: real): (r: real)
    ensures r > 0.0
  {
    0.125 * e((-v) / 80.0)
  }

  function AlphaMDenominator(e: Exp, v: real): real
  {
    10.0 * (e((25.0 - v) / 10.0) - 1.0)
  }

  function AlphaM(e: Exp, v: real): (r: real)
    requires v != AlphaMPole
    ensures r > 0.0
  {
    QuotientSign(25.0 - v, AlphaMDenominator(e, v));
    (25.0 - v) / AlphaMDenominator(e, v)
  }

  function BetaM(e: Exp, v: real): (r: real)
    ensures r > 0.0
  {
    4.0 * e(-v / 18.0)
  }

  function AlphaH(e: Exp, v: real): (r: real)
    ensures r > 0.0
  {
    0.07 * e(-v / 20.0)
  }

  function BetaH(e: Exp, v: real): (r: real)
    ensures 0.0 < r < 1.0
  {
    1.0 / (1.0 + e((30.0 - v) / 10.0))
  }

  /** Both alpha denominators vanish exactly at one voltage, where the
      numerator vanishes too: removable 0/0 singularities at 10 and 25 mV. */
  lemma PolesAreRemovable(e: Exp, v: real)
    ensures AlphaNDenominator(e, v) == 0.0 <==> v == AlphaNPole
    ensures AlphaMDenominator(e, v) == 0.0 <==> v == AlphaMPole
    ensures 10.0 - AlphaNPole == 0.0 && 25.0 - AlphaMPole == 0.0
  {
    ExpIsOneOnlyAtZero(e, (10.0 - v) / 10.0);
    ExpIsOneOnlyAtZero(e, (25.0 - v) / 10.0);
  }

  /** Shifting the voltage origin by 65 mV turns four of these rates into
      the absolute rates of HH_back.py exactly. */
  lemma ShiftedRatesAgree(e: Exp, v: real)
    ensures BetaN(e, v + 65.0) == AbsoluteRates.BetaN(e, v)
    ensures BetaM(e, v + 65.0) == AbsoluteRates.BetaM(e, v)
    ensures AlphaH(e, v + 65.0) == AbsoluteRates.AlphaH(e, v)
    ensures BetaH(e, v + 65.0) == AbsoluteRates.BetaH(e, v)
  {
    assert (-(v + 65.0)) / 80.0 == -(v + 65.0) / 80.0;
    assert -(v + 65.0) / 18.0 == -(v + 65.0) / 18.0;
    assert (30.0 - (v + 65.0)) / 10.0 == -(v + 35.0) / 10.0;
  }

  /** Dividing a negated numerator by a negated, scaled denominator. */
  lemma NegatedQuotient(a: real, d: real, k: real)
    requires d != 0.0 && k != 0.0
    ensures (-a) / (-k * d) == (1.0 / k) * a / d
  {
    var q := (1.0 / k) * a / d;
    assert q * d == (1.0 / k) * a;
    assert q * (-k * d) == -a;
  }

  /** The shifted alphaM is the absolute alphaM. */
  lemma ShiftedAlphaMAgrees(e: Exp, v: real)
    requires v != AbsoluteRates.AlphaMPole
    ensures AlphaM(e, v + 65.0) == AbsoluteRates.AlphaM(e, v)
  {
    var x := (25.0 - (v + 65.0)) / 10.0;
    assert x == -(v + 40.0) / 10.0;
    var d := 1.0 - e(x);
    AbsoluteRates.AlphaMPoleIsRemovable(e, v);
    assert AlphaMDenominator(e, v + 65.0) == -10.0 * d;
    NegatedQuotient(v + 40.0, d, 10.0);
  }

  /** The shifted alphaN is the intended absolute alphaN, centred at -55 mV,
      not the one HH_back.py writes. */
  lemma ShiftedAlphaNIsIntended(e: Exp, v: real)
    requires v != -55.0
    ensures AlphaN(e, v + 65.0) == AbsoluteRates.AlphaNIntended(e, v)
  {
    var x := (10.0 - (v + 65.0)) / 10.0;
    assert x == -(v + 55.0) / 10.0;
    var d := 1.0 - e(x);
    ExpIsOneOnlyAtZero(e, x);
    assert AlphaNDenominator(e, v + 65.0) == -100.0 * d;
    NegatedQuotient(v + 55.0, d, 100.0);
  }

  /** The as-written absolute alphaN is not a shift of this one: at -52 mV it
      is negative while the shifted rest-relative rate is positive. */
  lemma ShiftedAlphaNDisagrees(e: Exp)
    ensures AbsoluteRates.AlphaN(e, -52.0) != AlphaN(e, -52.0 + 65.0)
  {
    AbsoluteRates.AlphaNNegativeBelowPole(e);
  }
}
