/** The exchange's constant-product pricing: exact integer formulas with a 0.3%
    fee taken from the input side and every rounding in the pool's favour. */
module Pricing {
  import opened Base
  import opened Arith

  // Of every input, 997 per mille are priced and 3 per mille are the fee.

  /** A trade of `inAmount` in for `outAmount` out keeps the fee-adjusted
      product: with the input counted net of fee, the pool still holds at least
      the product of its reserves before the trade. */
  predicate KeepsProduct(inAmount: nat, outAmount: nat, inReserve: nat, outReserve: nat) {
    outAmount <= outReserve &&
    (1000 * inReserve + 997 * inAmount) * (outReserve - outAmount) >= 1000 * inReserve * outReserve
  }

  /** As KeepsProduct, with the product strictly larger afterwards. */
  predicate GrowsProduct(inAmount: nat, outAmount: nat, inReserve: nat, outReserve: nat) {
    outAmount <= outReserve &&
    (1000 * inReserve + 997 * inAmount) * (outReserve - outAmount) > 1000 * inReserve * outReserve
  }

  /** KeepsProduct unfolded: it asks that the net input pays for the output. */
  lemma KeepsProductIff(a: nat, b: nat, rIn: nat, rOut: nat)
    requires b <= rOut
    ensures KeepsProduct(a, b, rIn, rOut) <==> b * (1000 * rIn + 997 * a) <= 997 * a * rOut
    ensures GrowsProduct(a, b, rIn, rOut) <==> b * (1000 * rIn + 997 * a) < 997 * a * rOut
  {
    var den := 1000 * rIn + 997 * a;
    assert den * (rOut - b) == den * rOut - den * b;
    assert den * rOut == 1000 * rIn * rOut + 997 * a * rOut;
  }

  /** The amount `input_price` returns on non-empty reserves: the largest
      output that keeps the fee-adjusted product, always less than the whole
      output reserve. */
  function Bought(inputAmount: nat, inputReserve: nat, outputReserve: nat): (r: nat)
    requires inputReserve > 0 && outputReserve > 0
    ensures r < outputReserve
    ensures KeepsProduct(inputAmount, r, inputReserve, outputReserve)
    ensures !KeepsProduct(inputAmount, r + 1, inputReserve, outputReserve)
  {
    var b := FloorDiv(inputAmount * 997 * outputReserve, inputReserve * 1000 + inputAmount * 997);
    BoughtBounds(b, inputAmount, inputReserve, outputReserve);
    b
  }

  /** The step of Bought's proof: the floor keeps the product, one more does not. */
  lemma BoughtBounds(b: nat, a: nat, rIn: nat, rOut: nat)
    requires rIn > 0 && rOut > 0
    requires b * (rIn * 1000 + a * 997) <= a * 997 * rOut < (b + 1) * (rIn * 1000 + a * 997)
    ensures b < rOut
    ensures KeepsProduct(a, b, rIn, rOut)
    ensures !KeepsProduct(a, b + 1, rIn, rOut)
  {
    var den := rIn * 1000 + a * 997;
    assert a * 997 * rOut < rOut * den;
    KeepsProductIff(a, b, rIn, rOut);
    if b + 1 <= rOut {
      KeepsProductIff(a, b + 1, rIn, rOut);
    }
  }

  /** `input_price`: aborts unless both reserves are non-empty, otherwise buys
      the largest output that keeps the fee-adjusted product. */
  function InputPrice(inputAmount: nat, inputReserve: nat, outputReserve: nat): (r: Result<nat, Error>)
    ensures r.Ok? <==> inputReserve > 0 && outputReserve > 0
    ensures r.Err? ==> r.error == InvalidReserve
    ensures r.Ok? ==> r.value < outputReserve
    ensures r.Ok? ==> KeepsProduct(inputAmount, r.value, inputReserve, outputReserve)
    ensures r.Ok? ==> !KeepsProduct(inputAmount, r.value + 1, inputReserve, outputReserve)
  {
    if inputReserve > 0 && outputReserve > 0 then
      Ok(Bought(inputAmount, inputReserve, outputReserve))
    else
      Err(InvalidReserve)
  }

  /** The amount `output_price` returns when it does not abort: the least input
      that strictly grows the fee-adjusted product, never below 1. */
  function Cost(outputAmount: nat, inputReserve: nat, outputReserve: nat): (r: nat)
    requires inputReserve > 0 && outputAmount < outputReserve
    ensures r >= 1
    ensures GrowsProduct(r, outputAmount, inputReserve, outputReserve)
    ensures !GrowsProduct(r - 1, outputAmount, inputReserve, outputReserve)
  {
    var q := FloorDiv(inputReserve * outputAmount * 1000, (outputReserve - outputAmount) * 997);
    CostBounds(q, outputAmount, inputReserve, outputReserve);
    q + 1
  }

  /** The step of Cost's proof: q + 1 grows the product and q does not. */
  lemma CostBounds(q: nat, out: nat, rIn: nat, rOut: nat)
    requires rIn > 0 && out < rOut
    requires q * ((rOut - out) * 997) <= rIn * out * 1000 < (q + 1) * ((rOut - out) * 997)
    ensures GrowsProduct(q + 1, out, rIn, rOut)
    ensures !GrowsProduct(q, out, rIn, rOut)
  {
    GrowsIff(q + 1, out, rIn, rOut);
    GrowsIff(q, out, rIn, rOut);
  }

  /** `output_price`: aborts on an empty reserve, and when the output is the
      whole output reserve or more (the subtraction underflows, or the divisor
      is zero); otherwise asks the least input that grows the product. */
  function OutputPrice(outputAmount: nat, inputReserve: nat, outputReserve: nat): (r: Result<nat, Error>)
    ensures r.Ok? <==> inputReserve > 0 && outputReserve > 0 && outputAmount < outputReserve
    ensures r.Err? && (inputReserve == 0 || outputReserve == 0) ==> r.error == InvalidReserve
    ensures r.Err? && inputReserve > 0 && outputReserve > 0 ==> r.error == DepletedReserve
    ensures r.Ok? ==> r.value >= 1
    ensures r.Ok? ==> GrowsProduct(r.value, outputAmount, inputReserve, outputReserve)
    ensures r.Ok? ==> !GrowsProduct(r.value - 1, outputAmount, inputReserve, outputReserve)
  {
    if !(inputReserve > 0 && outputReserve > 0) then
      Err(InvalidReserve)
    else if outputAmount >= outputReserve then
      Err(DepletedReserve)
    else
      Ok(Cost(outputAmount, inputReserve, outputReserve))
  }

  /** GrowsProduct unfolded from the output side: the net input must outweigh
      the output's share of the input reserve. */
  lemma GrowsIff(p: nat, out: nat, rIn: nat, rOut: nat)
    requires out <= rOut
    ensures GrowsProduct(p, out, rIn, rOut) <==> 997 * p * (rOut - out) > 1000 * rIn * out
  {
    var left := (1000 * rIn + 997 * p) * (rOut - out);
    assert left == 1000 * rIn * (rOut - out) + 997 * p * (rOut - out);
    assert 1000 * rIn * (rOut - out) == 1000 * rIn * rOut - 1000 * rIn * out;
  }

  /** A smaller output keeps the product whenever a larger one does. */
  lemma KeepsSmallerOutput(a: nat, b1: nat, b2: nat, rIn: nat, rOut: nat)
    requires b1 <= b2 && KeepsProduct(a, b2, rIn, rOut)
    ensures KeepsProduct(a, b1, rIn, rOut)
  {
    MulMono(1000 * rIn + 997 * a, rOut - b2, rOut - b1);
  }

  /** A larger input grows the product whenever a smaller one does. */
  lemma GrowsLargerInput(p1: nat, p2: nat, out: nat, rIn: nat, rOut: nat)
    requires p1 <= p2 && GrowsProduct(p1, out, rIn, rOut)
    ensures GrowsProduct(p2, out, rIn, rOut)
  {
    MulMono(rOut - out, 1000 * rIn + 997 * p1, 1000 * rIn + 997 * p2);
  }

  /** Bought is the largest output that keeps the product. */
  lemma BoughtMaximal(a: nat, b: nat, rIn: nat, rOut: nat)
    requires rIn > 0 && rOut > 0 && KeepsProduct(a, b, rIn, rOut)
    ensures b <= Bought(a, rIn, rOut)
  {
    var best := Bought(a, rIn, rOut);
    if best < b {
      KeepsSmallerOutput(a, best + 1, b, rIn, rOut);
      assert false;
    }
  }

  /** Cost is the least input that grows the product. */
  lemma CostMinimal(p: nat, out: nat, rIn: nat, rOut: nat)
    requires rIn > 0 && out < rOut && GrowsProduct(p, out, rIn, rOut)
    ensures Cost(out, rIn, rOut) <= p
  {
    var least := Cost(out, rIn, rOut);
    if p < least {
      GrowsLargerInput(p, least - 1, out, rIn, rOut);
      assert false;
    }
  }

  /** Without the fee, a priced trade never shrinks the product of the reserves:
      (R_in + a) * (R_out - bought) >= R_in * R_out. */
  lemma BoughtKeepsRawProduct(a: nat, rIn: nat, rOut: nat)
    requires rIn > 0 && rOut > 0
    ensures (rIn + a) * (rOut - Bought(a, rIn, rOut)) >= rIn * rOut
  {
    var b := Bought(a, rIn, rOut);
    KeepsProductIff(a, b, rIn, rOut);
    // b * (1000 rIn + 997 a) <= 997 a rOut, and 997 (rIn + a) <= 1000 rIn + 997 a
    MulMono(b, 997 * (rIn + a), 1000 * rIn + 997 * a);
    assert 997 * (b * (rIn + a)) <= 997 * (a * rOut);
    assert (rIn + a) * (rOut - b) == rIn * rOut + a * rOut - b * (rIn + a);
  }

  /** Without the fee, paying output_price's cost strictly grows the product of
      the reserves: (R_in + cost) * (R_out - out) > R_in * R_out. */
  lemma CostGrowsRawProduct(out: nat, rIn: nat, rOut: nat)
    requires rIn > 0 && out < rOut
    ensures (rIn + Cost(out, rIn, rOut)) * (rOut - out) > rIn * rOut
  {
    var p := Cost(out, rIn, rOut);
    // (1000 rIn + 997 p) (rOut - out) > 1000 rIn rOut, and 1000 rIn + 997 p <= 1000 (rIn + p)
    MulMono(rOut - out, 1000 * rIn + 997 * p, 1000 * (rIn + p));
    assert 1000 * ((rIn + p) * (rOut - out)) > 1000 * (rIn * rOut);
  }

  /** Paying what output_price asks and selling it at input_price never buys
      less than was asked for: the fee only ever works against the trader. */
  lemma OutputThenInput(out: nat, rIn: nat, rOut: nat)
    requires rIn > 0 && rOut > 0 && out < rOut
    ensures Bought(Cost(out, rIn, rOut), rIn, rOut) >= out
  {
    BoughtMaximal(Cost(out, rIn, rOut), out, rIn, rOut);
  }

  /** Selling more never buys less. */
  lemma BoughtMonotone(a1: nat, a2: nat, rIn: nat, rOut: nat)
    requires rIn > 0 && rOut > 0 && a1 <= a2
    ensures Bought(a1, rIn, rOut) <= Bought(a2, rIn, rOut)
  {
    var b1 := Bought(a1, rIn, rOut);
    MulMono(rOut - b1, 1000 * rIn + 997 * a1, 1000 * rIn + 997 * a2);
    BoughtMaximal(a2, b1, rIn, rOut);
  }

  /** Buying more never costs less. */
  lemma CostMonotone(o1: nat, o2: nat, rIn: nat, rOut: nat)
    requires rIn > 0 && o1 <= o2 < rOut
    ensures Cost(o1, rIn, rOut) <= Cost(o2, rIn, rOut)
  {
    var p2 := Cost(o2, rIn, rOut);
    MulMono(1000 * rIn + 997 * p2, rOut - o2, rOut - o1);
    CostMinimal(p2, o1, rIn, rOut);
  }

  /** If u r1 covers v r1 + w, a larger r2 covers it too: the slack u - v
      cannot be negative, so scaling it up only helps. */
  lemma ScaleSlack(r1: nat, r2: nat, u: nat, v: nat, w: nat, strict: bool)
    requires 0 < r1 <= r2
    requires if strict then v * r1 + w < u * r1 else v * r1 + w <= u * r1
    ensures if strict then v * r2 + w < u * r2 else v * r2 + w <= u * r2
  {
    var d: int := u - v;
    assert d * r1 == u * r1 - v * r1;
    assert d >= 0;
    MulMono(d as nat, r1, r2);
    assert d * r2 == u * r2 - v * r2;
  }

  /** In a pool whose two reserves are equal, whatever output a sale may take
      from a shallower pool it may also take from a deeper one. */
  lemma KeepsDeeper(a: nat, b: nat, r1: nat, r2: nat)
    requires 0 < r1 <= r2 && KeepsProduct(a, b, r1, r1) && b <= r2
    ensures KeepsProduct(a, b, r2, r2)
  {
    KeepsProductIff(a, b, r1, r1);
    assert b * (1000 * r1 + 997 * a) == (1000 * b) * r1 + 997 * a * b;
    assert 997 * a * r1 == (997 * a) * r1;
    ScaleSlack(r1, r2, 997 * a, 1000 * b, 997 * a * b, false);
    assert b * (1000 * r2 + 997 * a) == (1000 * b) * r2 + 997 * a * b;
    assert 997 * a * r2 == (997 * a) * r2;
    KeepsProductIff(a, b, r2, r2);
  }

  /** In a pool whose two reserves are equal, an input that grows a shallower
      pool's product for some output grows a deeper pool's too. */
  lemma GrowsDeeper(p: nat, out: nat, r1: nat, r2: nat)
    requires out < r1 <= r2 && GrowsProduct(p, out, r1, r1)
    ensures GrowsProduct(p, out, r2, r2)
  {
    GrowsIff(p, out, r1, r1);
    assert 997 * p * (r1 - out) == (997 * p) * r1 - 997 * p * out;
    assert 1000 * r1 * out == (1000 * out) * r1;
    ScaleSlack(r1, r2, 997 * p, 1000 * out, 997 * p * out, true);
    assert 997 * p * (r2 - out) == (997 * p) * r2 - 997 * p * out;
    assert 1000 * r2 * out == (1000 * out) * r2;
    GrowsIff(p, out, r2, r2);
  }

  /** In a pool whose two reserves are equal, a fixed sale buys no more from a
      shallower pool than from a deeper one. */
  lemma BoughtDepth(a: nat, r1: nat, r2: nat)
    requires 0 < r1 <= r2
    ensures Bought(a, r1, r1) <= Bought(a, r2, r2)
  {
    var b := Bought(a, r1, r1);
    KeepsDeeper(a, b, r1, r2);
    BoughtMaximal(a, b, r2, r2);
  }

  /** In a pool whose two reserves are equal, a fixed purchase costs no less
      in a shallower pool than in a deeper one. */
  lemma CostDepth(out: nat, r1: nat, r2: nat)
    requires out < r1 <= r2
    ensures Cost(out, r1, r1) >= Cost(out, r2, r2)
  {
    var p := Cost(out, r1, r1);
    GrowsDeeper(p, out, r1, r2);
    CostMinimal(p, out, r2, r2);
  }

  /** The price unit tests: 40 units against reserves of 200000 and of 200. */
  lemma PriceExamples()
    ensures InputPrice(40, 200000, 200000) == Ok(39)
    ensures InputPrice(40, 200, 200) == Ok(33)
    ensures OutputPrice(40, 200000, 200000) == Ok(41)
    ensures OutputPrice(40, 200, 200) == Ok(51)
  {
  }
}
