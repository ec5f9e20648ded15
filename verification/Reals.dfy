/** Facts about products of reals, kept apart so that proofs using them stay linear. */
module Reals {
  function Product(x: real, y: real): real {
    x * y
  }

  lemma ProductOfPositives(x: real, y: real)
    requires x > 0.0 && y > 0.0
    ensures x * y > 0.0
  {
  }

  lemma CancelFactor(x: real, y: real, f: real)
    requires f > 0.0
    ensures x * f <= y * f <==> x <= y
  {
  }
}
