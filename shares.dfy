/** The arithmetic of LP shares: what a proportional join must deposit and
    mints, and what a burn pays out. Every floor and every `+ 1` falls in the
    pool's favour, so no join or exit lowers the value of the other holders'
    shares. */
module Shares {
  import opened Arith

  /** Tokens `add_liquidity` pulls from a joining provider who sends `value`
      native units to a live pool: strictly more than the proportional amount,
      by at most one unit. */
  function JoinTokens(value: nat, tokenReserve: nat, dotReserve: nat): (r: nat)
    requires dotReserve > 0
    ensures r * dotReserve > value * tokenReserve
    ensures (r - 1) * dotReserve <= value * tokenReserve
  {
    FloorDiv(value * tokenReserve, dotReserve) + 1
  }

  /** LP shares minted for a join of `value` native units: the largest amount
      whose share of the new supply does not exceed the provider's share of
      the native reserve. */
  function JoinMinted(value: nat, totalSupply: nat, dotReserve: nat): (r: nat)
    requires dotReserve > 0
    ensures r * dotReserve <= value * totalSupply < (r + 1) * dotReserve
  {
    FloorDiv(value * totalSupply, dotReserve)
  }

  /** What burning `amount` of `totalSupply` shares pays out of `reserve`: the
      largest payout not above the burnt fraction, never more than the reserve. */
  function ExitShare(amount: nat, reserve: nat, totalSupply: nat): (r: nat)
    requires totalSupply > 0
    ensures r * totalSupply <= amount * reserve < (r + 1) * totalSupply
    ensures amount <= totalSupply ==> r <= reserve
  {
    var q := FloorDiv(amount * reserve, totalSupply);
    FractionBounded(q, amount, reserve, totalSupply);
    q
  }

  /** The step of ExitShare's proof: a fraction of at most one of the reserve
      is at most the reserve. */
  lemma FractionBounded(q: nat, amount: nat, reserve: nat, totalSupply: nat)
    requires totalSupply > 0 && q * totalSupply <= amount * reserve
    ensures amount <= totalSupply ==> q <= reserve
  {
    if amount <= totalSupply && q > reserve {
      MulMono(reserve, amount, totalSupply);
      MulStrict(totalSupply, reserve, q);
    }
  }

  /** A join does not lower the native and the token value of one share:
      (D + v) / (S + minted) >= D / S and (T + deposit) / (S + minted) >= T / S,
      written without division. */
  lemma JoinKeepsShareValue(value: nat, dotReserve: nat, tokenReserve: nat, totalSupply: nat)
    requires dotReserve > 0
    ensures var minted := JoinMinted(value, totalSupply, dotReserve);
      (dotReserve + value) * totalSupply >= dotReserve * (totalSupply + minted)
    ensures var minted := JoinMinted(value, totalSupply, dotReserve);
      var deposit := JoinTokens(value, tokenReserve, dotReserve);
      (tokenReserve + deposit) * totalSupply >= tokenReserve * (totalSupply + minted)
  {
    var minted := JoinMinted(value, totalSupply, dotReserve);
    var deposit := JoinTokens(value, tokenReserve, dotReserve);
    assert (dotReserve + value) * totalSupply == dotReserve * totalSupply + value * totalSupply;
    assert dotReserve * (totalSupply + minted) == dotReserve * totalSupply + minted * dotReserve;
    MintedWithinDeposit(value, dotReserve, tokenReserve, totalSupply, minted, deposit);
    assert (tokenReserve + deposit) * totalSupply == tokenReserve * totalSupply + deposit * totalSupply;
    assert tokenReserve * (totalSupply + minted) == tokenReserve * totalSupply + tokenReserve * minted;
  }

  /** The step of JoinKeepsShareValue's token half: from minted D <= v S and
      deposit D > v T it follows that T minted <= deposit S. */
  lemma MintedWithinDeposit(value: nat, dotReserve: nat, tokenReserve: nat, totalSupply: nat,
                            minted: nat, deposit: nat)
    requires dotReserve > 0
    requires minted * dotReserve <= value * totalSupply
    requires deposit * dotReserve > value * tokenReserve
    ensures tokenReserve * minted <= deposit * totalSupply
  {
    if totalSupply > 0 {
      MulMono(tokenReserve, minted * dotReserve, value * totalSupply);
      MulStrict(totalSupply, value * tokenReserve, deposit * dotReserve);
      assert (tokenReserve * minted) * dotReserve < (deposit * totalSupply) * dotReserve;
      CancelStrict(tokenReserve * minted, deposit * totalSupply, dotReserve);
    } else {
      assert minted * dotReserve <= 0;
    }
  }

  /** A burn does not lower the value of a remaining share:
      (R - payout) / (S - amount) >= R / S, written without division. */
  lemma ExitKeepsShareValue(amount: nat, reserve: nat, totalSupply: nat)
    requires 0 < totalSupply
    ensures var payout := ExitShare(amount, reserve, totalSupply);
      amount <= totalSupply ==> (reserve - payout) * totalSupply >= reserve * (totalSupply - amount)
  {
    var payout := ExitShare(amount, reserve, totalSupply);
    assert (reserve - payout) * totalSupply == reserve * totalSupply - payout * totalSupply;
    assert reserve * (totalSupply - amount) == reserve * totalSupply - amount * reserve;
  }

  /** Burning the whole supply pays out the whole reserve. */
  lemma ExitAll(reserve: nat, totalSupply: nat)
    requires totalSupply > 0
    ensures ExitShare(totalSupply, reserve, totalSupply) == reserve
  {
    var payout := ExitShare(totalSupply, reserve, totalSupply);
    if payout < reserve {
      MulMono(totalSupply, payout + 1, reserve);
    }
  }
}
