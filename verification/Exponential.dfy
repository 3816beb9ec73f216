/** The laws of an exponential and of its logarithm that the softmax needs, for whatever base:
    base 2 in the fused kernel, base e in the reference. */
module Exponential {

  /** Names a pair of numbers. Quantifying the laws over named pairs keeps the solver from
      applying them forever. */
  ghost predicate Exponents(a: real, b: real) {
    true
  }

  ghost predicate IsExponential(f: real -> real) {
    && f(0.0) == 1.0
    && (forall a :: f(a) > 0.0)
    && (forall a, b {:trigger Exponents(a, b)} :: Exponents(a, b) ==> f(a + b) == f(a) * f(b))
  }

  /** The exponential does not grow to the left of 0: what keeps softmax weights at most 1. */
  ghost predicate Decays(f: real -> real) {
    forall a :: a <= 0.0 ==> f(a) <= 1.0
  }

  lemma GrowsToTheRight(f: real -> real, a: real)
    requires IsExponential(f) && Decays(f) && a >= 0.0
    ensures f(a) >= 1.0
  {
    ExponentialAdds(f, a, -a);
    assert a + -a == 0.0;
    if f(a) < 1.0 {
      SmallerProduct(f(a), f(-a));
    }
  }

  lemma SmallerProduct(a: real, b: real)
    requires 0.0 < a < 1.0 && 0.0 < b <= 1.0
    ensures a * b < 1.0
  {
  }

  lemma ExponentialGrows(f: real -> real, a: real, b: real)
    requires IsExponential(f) && Decays(f) && a <= b
    ensures f(a) <= f(b)
  {
    ExponentialAdds(f, b, a - b);
    assert b + (a - b) == a;
    var p, q := f(b), f(a - b);
    assert p > 0.0 && q <= 1.0;
    hide IsExponential, Decays;
    NoLarger(p, q);
  }

  lemma NoLarger(p: real, q: real)
    requires p > 0.0 && q <= 1.0
    ensures p * q <= p
  {
  }

  /** log turns a factor f(b) into a summand b. */
  ghost predicate IsLogarithm(log: real -> real, f: real -> real) {
    forall y, b {:trigger Exponents(y, b)} :: Exponents(y, b) && y > 0.0 ==> log(y * f(b)) == log(y) + b
  }

  lemma LogOfProduct(log: real -> real, f: real -> real, y: real, b: real, z: real)
    requires IsLogarithm(log, f) && y > 0.0 && z == f(b) * y
    ensures log(z) == log(y) + b
  {
    assert Exponents(y, b);
    assert z == y * f(b);
  }

  /** A scale applied to a score. */
  function Scaled(scale: real, s: real): real {
    scale * s
  }

  lemma ExponentialAdds(f: real -> real, a: real, b: real)
    requires IsExponential(f)
    ensures f(a + b) == f(a) * f(b)
  {
    assert Exponents(a, b);
  }

  /** Moving the shift of an exponential from c to c' multiplies it by f(c - c'). */
  lemma ShiftChange(f: real -> real, y: real, c: real, c': real)
    requires IsExponential(f)
    ensures f(y - c') == f(c - c') * f(y - c)
  {
    ExponentialAdds(f, c - c', y - c);
    assert (c - c') + (y - c) == y - c';
  }
}
