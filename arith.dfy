/** Small facts about natural-number multiplication and floor division that
    the solver needs spelled out before it can use them in larger proofs. */
module Arith {

  /** Floor division, stated as the two inequalities that define it. */
  function FloorDiv(n: nat, d: nat): (q: nat)
    requires d > 0
    ensures q * d <= n < (q + 1) * d
  {
    n / d
  }

  /** Multiplying by a natural number keeps an inequality. */
  lemma MulMono(k: nat, x: nat, y: nat)
    requires x <= y
    ensures k * x <= k * y && x * k <= y * k
  {
  }

  /** Multiplying by a positive number keeps a strict inequality. */
  lemma MulStrict(k: nat, x: nat, y: nat)
    requires k > 0 && x < y
    ensures k * x < k * y && x * k < y * k
  {
  }

  /** A positive common factor can be cancelled from a strict inequality. */
  lemma CancelStrict(x: nat, y: nat, k: nat)
    requires x * k < y * k
    ensures x < y
  {
    if y <= x {
      MulMono(k, y, x);
    }
  }
}
