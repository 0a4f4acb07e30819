/**
  * Python's `x ** e` for a real base `x >= 0` and a positive real exponent. Its value
  * is irrational in general, so the scoring model takes it as a function value `pow`
  * and relies only on the laws every real power with a positive exponent obeys.
  */
module RealPower {

  type PowFn = (real, real) -> real

  /**
    * The laws of `x ** e` for `x >= 0` and `e > 0`: `0 ** e == 0`, `1 ** e == 1`,
    * and the power grows strictly with its base.
    */
  ghost predicate PowLaws(pow: PowFn) {
    (forall e: real :: 0.0 < e ==> pow(0.0, e) == 0.0) &&
    (forall e: real :: 0.0 < e ==> pow(1.0, e) == 1.0) &&
    (forall x: real, y: real, e: real :: 0.0 <= x < y && 0.0 < e ==> pow(x, e) < pow(y, e))
  }

  /** The consequences of the laws that the scores use. */
  lemma PowRange(pow: PowFn, x: real, e: real)
    requires PowLaws(pow)
    requires 0.0 <= x && 0.0 < e
    ensures 0.0 <= pow(x, e)
    ensures x < 1.0 ==> pow(x, e) < 1.0
    ensures x <= 1.0 ==> pow(x, e) <= 1.0
    ensures 1.0 <= x ==> 1.0 <= pow(x, e)
  {
    assert pow(0.0, e) == 0.0 && pow(1.0, e) == 1.0;
    if 0.0 < x {
      assert pow(0.0, e) < pow(x, e);
    }
    if x < 1.0 {
      assert pow(x, e) < pow(1.0, e);
    }
    if 1.0 < x {
      assert pow(1.0, e) < pow(x, e);
    }
  }

  /** The power is monotone in its base. */
  lemma PowMonotone(pow: PowFn, x: real, y: real, e: real)
    requires PowLaws(pow)
    requires 0.0 <= x <= y && 0.0 < e
    ensures pow(x, e) <= pow(y, e)
  {
    if x < y {
      assert pow(x, e) < pow(y, e);
    }
  }

  /** A power function that obeys the laws, so `PowLaws` can be met. */
  function IdentityPow(x: real, e: real): real {
    if x <= 0.0 then 0.0 else x
  }

  lemma IdentityPowObeysLaws()
    ensures PowLaws(IdentityPow)
  {
  }
}
