/** The exponential function is never computed in this model. Every rate
    function and every simulation receives it as a parameter of type `Exp`:
    a function from reals to reals that is positive, equals 1 at 0, and lies
    below 1 exactly for negative arguments and above 1 exactly for positive
    ones. Those are the only facts about exp that the proofs use. */
module Exponential {

  ghost predicate ExpLaws(f: real -> real)
  {
    && f(0.0) == 1.0
    && forall x :: 0.0 < f(x) && (x < 0.0 ==> f(x) < 1.0) && (x > 0.0 ==> f(x) > 1.0)
  }

  type Exp = f: real -> real | ExpLaws(f)
    witness (x: real) => if x >= 0.0 then 1.0 + x else 1.0 / (1.0 - x)

  /** exp takes the value 1 at 0 and nowhere else. */
  lemma ExpIsOneOnlyAtZero(e: Exp, x: real)
    ensures e(x) == 1.0 <==> x == 0.0
  {
  }

  /** The sign of a quotient is decided by the signs of its two operands. */
  lemma QuotientSign(a: real, b: real)
    requires b != 0.0
    ensures a / b > 0.0 <==> (a > 0.0 && b > 0.0) || (a < 0.0 && b < 0.0)
    ensures a / b == 0.0 <==> a == 0.0
  {
    assert (a / b) * b == a;
    if a / b > 0.0 && b < 0.0 {
      assert (a / b) * b < 0.0;
    }
    if a / b > 0.0 && b > 0.0 {
      assert (a / b) * b > 0.0;
    }
    if a / b < 0.0 && b > 0.0 {
      assert (a / b) * b < 0.0;
    }
    if a / b < 0.0 && b < 0.0 {
      assert (a / b) * b > 0.0;
    }
  }
}
