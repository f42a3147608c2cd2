/**
 The activation kernel of the perceptron: the logistic sigmoid and its
 derivative expressed through the sigmoid's own output.

 The logistic function 1/(1 + e^-x) is not expressible over `real`, so the
 model takes the activation as a parameter `sigma` and states, in `IsSigmoid`,
 the facts about it that the engine and its tests rely on.
 */
module Activation {
  import opened Linear

  /** The properties of 1/(1 + e^-x) the model may use: every value lies in
      the open interval (0, 1), the midpoint is 1/2, and the saturation
      bounds at +-100 that the unit test asserts. */
  ghost predicate IsSigmoid(sigma: real -> real) {
    && sigma(0.0) == 0.5
    && sigma(100.0) > 0.999
    && sigma(-100.0) < 0.001
    && forall x :: 0.0 < sigma(x) < 1.0
  }

  /** A rational stand-in for the logistic curve, 1/2 + x / (2 (|x| + 1/100)).
      It only serves to show that `IsSigmoid` can be met, so that no lemma
      assuming it is vacuous. */
  function RationalSigmoid(x: real): (r: real)
    ensures 0.0 < r < 1.0
    ensures x == 0.0 ==> r == 0.5
  {
    var m := if x < 0.0 then -x else x;
    var q := x / (m + 0.01);
    QuotientFacts(x, m + 0.01);
    0.5 + 0.5 * q
  }

  lemma RationalSigmoidIsSigmoid()
    ensures IsSigmoid(RationalSigmoid)
  {
    var q := 100.0 / 100.01;
    assert q * 100.01 == 100.0;
    assert q > 0.998;
    assert RationalSigmoid(100.0) == 0.5 + 0.5 * q;
    assert RationalSigmoid(-100.0) == 0.5 + 0.5 * (-100.0 / 100.01);
  }

  /** The sigmoid derivative written through the activation a = sigma(x):
      sigma'(x) = a (1 - a). The argument must already be an activation;
      on activations the value is positive and at most 1/4. */
  function DSigmoid(a: real): (r: real)
    ensures 0.0 <= a <= 1.0 ==> 0.0 <= r <= 0.25
    ensures 0.0 < a < 1.0 ==> 0.0 < r
  {
    QuarterBound(a);
    SlopeSign(a);
    a * (1.0 - a)
  }

  lemma QuarterBound(a: real)
    ensures a * (1.0 - a) <= 0.25
  {
  }

  lemma SlopeSign(a: real)
    ensures 0.0 <= a <= 1.0 ==> 0.0 <= a * (1.0 - a)
    ensures 0.0 < a < 1.0 ==> 0.0 < a * (1.0 - a)
  {
    if 0.0 < a < 1.0 {
      SignOfProduct(a, 1.0 - a, a * (1.0 - a));
    }
  }

  /** On any activation the derivative is strictly positive and at most 1/4,
      reaching 1/4 at the sigmoid's midpoint. */
  lemma DSigmoidOfActivation(sigma: real -> real, x: real)
    requires IsSigmoid(sigma)
    ensures 0.0 < DSigmoid(sigma(x)) <= 0.25
    ensures x == 0.0 ==> DSigmoid(sigma(x)) == 0.25
  {
  }
}
