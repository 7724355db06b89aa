/** Powers of exact reals, standing in for Python's float `**` with an integer exponent. */
module Money {

  function Pow(x: real, n: nat): (r: real)
    ensures x > 0.0 ==> r > 0.0
    ensures x != 0.0 ==> r != 0.0
  {
    if n == 0 then 1.0 else x * Pow(x, n - 1)
  }

  /** `x ** n` raises ZeroDivisionError exactly when `x` is zero and `n` is negative. */
  predicate PowDefined(x: real, n: int)
  {
    x != 0.0 || n >= 0
  }

  /** `x ** n` for an integer `n` of either sign. */
  function IntPow(x: real, n: int): real
    requires PowDefined(x, n)
  {
    if n >= 0 then Pow(x, n) else 1.0 / Pow(x, -n)
  }

  /** A base of at least one gives powers of at least one, and a base above one gives
      powers above one from the first power on. */
  lemma {:induction false} PowAtLeastOne(x: real, n: nat)
    requires x >= 1.0
    ensures Pow(x, n) >= 1.0
    ensures x > 1.0 && n >= 1 ==> Pow(x, n) > 1.0
  {
    if n > 0 {
      PowAtLeastOne(x, n - 1);
      var p := Pow(x, n - 1);
      assert x * p >= 1.0 * p by {
        assert (x - 1.0) * p >= 0.0;
      }
    }
  }

  /** Above one and a non-zero exponent of either sign: the power is not one. */
  lemma {:induction false} IntPowNotOne(x: real, n: int)
    requires x > 1.0 && n != 0
    ensures PowDefined(x, n) && IntPow(x, n) != 1.0
  {
    if n > 0 {
      PowAtLeastOne(x, n);
    } else {
      PowAtLeastOne(x, -n);
      var p := Pow(x, -n);
      assert 1.0 / p < 1.0 by {
        assert (1.0 / p) * p == 1.0;
      }
    }
  }
}
