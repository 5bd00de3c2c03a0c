/** The six gate rate functions (per millisecond) of the absolute-voltage
    variants: the same definitions appear in HH_back.py and HH_backend.py.
    The voltage argument is the transmembrane potential in mV (rest is -70). */
module AbsoluteRates {
  import opened Exponential

  /** Voltage at which the denominator of alphaN vanishes. */
  const AlphaNPole: real := -50.0
  /** Voltage at which the denominator of alphaM vanishes. */
  const AlphaMPole: real := -40.0

  function AlphaNNumerator(v: real): real
  {
    0.01 * (v + 55.0)
  }

  function AlphaNDenominator(e: Exp, v: real): real
  {
    1.0 - e(-(v + 50.0) / 10.0)
  }

  /** Opening rate of the potassium activation gate N, as written. Because the
      numerator is centred at -55 mV and the exponential at -50 mV, the rate is
      negative strictly between the two and has a true pole at -50 mV. */
  function AlphaN(e: Exp, v: real): (r: real)
    requires v != AlphaNPole
    ensures r > 0.0 <==> v < -55.0 || v > -50.0
    ensures r == 0.0 <==> v == -55.0
    ensures r < 0.0 <==> -55.0 < v < -50.0
  {
    QuotientSign(AlphaNNumerator(v), AlphaNDenominator(e, v));
    AlphaNNumerator(v) / AlphaNDenominator(e, v)
  }

  function BetaN(e: Exp, v: real): (r: real)
    ensures r > 0.0
  {
    0.125 * e(-(v + 65.0) / 80.0)
  }

  function AlphaMNumerator(v: real): real
  {
    0.1 * (v + 40.0)
  }

  function AlphaMDenominator(e: Exp, v: real): real
  {
    1.0 - e(-(v + 40.0) / 10.0)
  }

  /** Opening rate of the sodium activation gate M. */
  function AlphaM(e: Exp, v: real): (r: real)
    requires v != AlphaMPole
    ensures r > 0.0
  {
    QuotientSign(AlphaMNumerator(v), AlphaMDenominator(e, v));
    AlphaMNumerator(v) / AlphaMDenominator(e, v)
  }

  function BetaM(e: Exp, v: real): (r: real)
    ensures r > 0.0
  {
    4.0 * e(-(v + 65.0) / 18.0)
  }

  function AlphaH(e: Exp, v: real): (r: real)
    ensures r > 0.0
  {
    0.07 * e(-(v + 65.0) / 20.0)
  }

  /** Closing rate of the sodium inactivation gate H: a logistic curve. */
  function BetaH(e: Exp, v: real): (r: real)
    ensures 0.0 < r < 1.0
  {
    1.0 / (1.0 + e(-(v + 35.0) / 10.0))
  }

  /** alphaN's denominator vanishes at -50 mV and only there, and its
      numerator is 0.05 there: the singularity is a pole, not 0/0. */
  lemma AlphaNPoleIsNotRemovable(e: Exp, v: real)
    ensures AlphaNDenominator(e, v) == 0.0 <==> v == AlphaNPole
    ensures AlphaNNumerator(AlphaNPole) == 0.05
  {
    ExpIsOneOnlyAtZero(e, -(v + 50.0) / 10.0);
  }

  /** alphaM's denominator vanishes at -40 mV and only there, where its
      numerator is 0 as well: a removable 0/0. */
  lemma AlphaMPoleIsRemovable(e: Exp, v: real)
    ensures AlphaMDenominator(e, v) == 0.0 <==> v == AlphaMPole
    ensures AlphaMNumerator(AlphaMPole) == 0.0
  {
    ExpIsOneOnlyAtZero(e, -(v + 40.0) / 10.0);
  }

  /** As written, alphaN is a negative rate at -52 mV, a voltage the membrane
      passes through on its way to threshold. */
  lemma AlphaNNegativeBelowPole(e: Exp)
    ensures AlphaN(e, -52.0) < 0.0
  {
  }

  /** alphaN with its exponential centred at -55 mV like its numerator: the
      textbook form, and the form old_HH.py uses once its rest-relative
      voltage is shifted by -65 mV. Positive everywhere off its removable
      singularity. */
  function AlphaNIntended(e: Exp, v: real): (r: real)
    requires v != -55.0
    ensures r > 0.0
  {
    var den := 1.0 - e(-(v + 55.0) / 10.0);
    QuotientSign(0.01 * (v + 55.0), den);
    0.01 * (v + 55.0) / den
  }
}
