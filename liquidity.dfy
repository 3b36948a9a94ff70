/** What `add_liquidity` and `remove_liquidity` decide, as functions of the
    exchange's reserves, LP supply and arguments: either the amounts the call
    moves, or the reason it aborts, checked in the contract's own order. */
module Liquidity {
  import opened Base
  import opened Ledger
  import opened Shares

  /** A successful join: LP shares minted and tokens pulled from the provider. */
  datatype Joined = Joined(minted: nat, deposit: nat)

  /** A successful exit: native and token amounts paid out. */
  datatype Exited = Exited(dotOut: nat, tokenOut: nat)

  /** `add_liquidity` on a native reserve `dotReserve` held before the call,
      `value` native units sent with it, a provider holding `providerTokens`.
      An empty supply is bootstrapped: the whole native balance is minted and
      exactly `maxTokens` are pulled. A live pool is joined proportionally. */
  function Join(dotReserve: nat, tokenReserve: nat, totalSupply: nat, providerTokens: nat,
                now: Timestamp, value: nat, minLiquidity: nat, maxTokens: nat, deadline: Timestamp)
    : (r: Result<Joined, Error>)
    ensures !(deadline >= now && maxTokens > 0 && value > 0) ==> r == Err(InvalidArgument)
    ensures r.Ok? ==> r.value.deposit <= maxTokens && r.value.deposit <= providerTokens
    ensures r.Ok? && totalSupply == 0 ==> r.value == Joined(dotReserve + value, maxTokens)
    ensures totalSupply == 0 && deadline >= now && maxTokens > 0 && value > 0 ==>
      (r.Ok? <==> maxTokens <= providerTokens)
    ensures totalSupply > 0 && deadline >= now && maxTokens > 0 && value > 0 ==>
      (r.Ok? <==> minLiquidity > 0 && dotReserve > 0
                  && JoinTokens(value, tokenReserve, dotReserve) <= maxTokens
                  && JoinMinted(value, totalSupply, dotReserve) >= minLiquidity
                  && JoinTokens(value, tokenReserve, dotReserve) <= providerTokens)
    ensures r.Ok? && totalSupply > 0 ==>
      && dotReserve > 0
      && r.value == Joined(JoinMinted(value, totalSupply, dotReserve), JoinTokens(value, tokenReserve, dotReserve))
    ensures r.Ok? && totalSupply > 0 ==>
      && r.value.minted >= minLiquidity > 0
      && (dotReserve + value) * totalSupply >= dotReserve * (totalSupply + r.value.minted)
      && (tokenReserve + r.value.deposit) * totalSupply >= tokenReserve * (totalSupply + r.value.minted)
  {
    if !(deadline >= now && maxTokens > 0 && value > 0) then
      Err(InvalidArgument)
    else if totalSupply > 0 then
      if minLiquidity == 0 then Err(InvalidArgument)
      else if dotReserve == 0 then Err(EmptyReserve)
      else
        var deposit := JoinTokens(value, tokenReserve, dotReserve);
        var minted := JoinMinted(value, totalSupply, dotReserve);
        if !(maxTokens >= deposit && minted >= minLiquidity) then Err(SlippageExceeded)
        else if deposit > providerTokens then Err(TransferFailed)
        else
          JoinKeepsShareValue(value, dotReserve, tokenReserve, totalSupply);
          Ok(Joined(minted, deposit))
    else if maxTokens > providerTokens then
      Err(TransferFailed)
    else
      Ok(Joined(dotReserve + value, maxTokens))
  }

  /** `remove_liquidity` by `provider` against `balances`: burn `amount` shares
      for their fraction of both reserves. A provider with no LP entry at all
      aborts (the unwrap), as does one holding less than `amount`. */
  function Exit(dotReserve: nat, tokenReserve: nat, totalSupply: nat, balances: Balances,
                provider: AccountId, now: Timestamp, amount: nat, minDot: nat, minToken: nat,
                deadline: Timestamp)
    : (r: Result<Exited, Error>)
    ensures !(amount > 0 && deadline >= now && minDot > 0 && minToken > 0) ==> r == Err(InvalidArgument)
    ensures r.Ok? <==>
      && amount > 0 && deadline >= now && minDot > 0 && minToken > 0 && totalSupply > 0
      && ExitShare(amount, dotReserve, totalSupply) > minDot
      && ExitShare(amount, tokenReserve, totalSupply) > minToken
      && provider in balances && amount <= balances[provider]
    ensures r.Ok? ==>
      && totalSupply > 0
      && r.value == Exited(ExitShare(amount, dotReserve, totalSupply), ExitShare(amount, tokenReserve, totalSupply))
    ensures r.Ok? ==> r.value.dotOut > minDot && r.value.tokenOut > minToken
    ensures r.Ok? && amount <= totalSupply ==>
      && r.value.dotOut <= dotReserve && r.value.tokenOut <= tokenReserve
      && (dotReserve - r.value.dotOut) * totalSupply >= dotReserve * (totalSupply - amount)
      && (tokenReserve - r.value.tokenOut) * totalSupply >= tokenReserve * (totalSupply - amount)
  {
    if !(amount > 0 && deadline >= now && minDot > 0 && minToken > 0) then
      Err(InvalidArgument)
    else if totalSupply == 0 then
      Err(EmptySupply)
    else
      var dotOut := ExitShare(amount, dotReserve, totalSupply);
      var tokenOut := ExitShare(amount, tokenReserve, totalSupply);
      if !(dotOut > minDot && tokenOut > minToken) then Err(SlippageExceeded)
      else if provider !in balances then Err(NoLiquidity)
      else if balances[provider] < amount then Err(InsufficientLiquidity)
      else
        ExitKeepsShareValue(amount, dotReserve, totalSupply);
        ExitKeepsShareValue(amount, tokenReserve, totalSupply);
        Ok(Exited(dotOut, tokenOut))
  }

  /** Under the LP invariant (the balances sum to the supply) a successful exit
      never burns more than the supply and never pays out more than a reserve. */
  lemma ExitWithinReserves(dotReserve: nat, tokenReserve: nat, totalSupply: nat, balances: Balances,
                           provider: AccountId, now: Timestamp, amount: nat, minDot: nat, minToken: nat,
                           deadline: Timestamp)
    requires Sum(balances) == totalSupply
    requires Exit(dotReserve, tokenReserve, totalSupply, balances, provider, now, amount, minDot, minToken, deadline).Ok?
    ensures amount <= totalSupply
    ensures var e := Exit(dotReserve, tokenReserve, totalSupply, balances, provider, now, amount, minDot, minToken, deadline).value;
      e.dotOut <= dotReserve && e.tokenOut <= tokenReserve
  {
    GetAtMostSum(balances, provider);
  }
}
