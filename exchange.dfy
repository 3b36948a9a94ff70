/** One exchange: a constant-product pool of native currency and one token,
    with its own ledger of LP shares. The chain environment becomes state and
    parameters: `dotBalance` is the exchange's native balance, `payouts` logs
    the native transfers it makes, the token reserve is the exchange's balance
    in the token's own ledger, and caller, timestamp and sent value are
    arguments. Every message either commits or returns an error and leaves
    every piece of state as it found it. */
module Exchange {
  import opened Base
  import opened Arith
  import opened Ledger
  import opened Pricing
  import opened Liquidity
  import opened Swaps
  import Token = Erc20

  /** A native-currency transfer out of the exchange. */
  datatype Payout = Payout(to: AccountId, amount: nat)

  class Exchange {
    /** The ledger of the token traded here. */
    const ledger: Token.Erc20
    /** The factory that deployed this exchange. */
    const factory: AccountId
    /** The exchange's own account. */
    const account: AccountId

    /** LP shares. */
    var totalSupply: nat
    var balances: Balances
    var allowances: map<(AccountId, AccountId), nat>

    /** The native balance the chain holds for `account`. */
    var dotBalance: nat
    /** Every native transfer made by the exchange, oldest first. */
    var payouts: seq<Payout>

    /** Every LP share is held by someone, and the token ledger is sound. */
    ghost predicate Valid()
      reads this, ledger
    {
      Sum(balances) == totalSupply && ledger.Valid()
    }

    /** `token_balance`: the exchange's holding in the token ledger. */
    function TokenReserve(): nat
      reads this, ledger
    {
      ledger.BalanceOf(account)
    }

    /** `new`: the deployer holds every LP share, as many as the native
        endowment; the pull of `tokenAmount` tokens from the deployer may
        fail without stopping the deployment. */
    constructor (ledger: Token.Erc20, factory: AccountId, account: AccountId, deployer: AccountId,
                 tokenAmount: nat, endowment: nat)
      requires ledger.Valid()
      modifies ledger`balances
      ensures Valid()
      ensures this.ledger == ledger && this.factory == factory && this.account == account
      ensures totalSupply == endowment && balances == map[deployer := endowment] && allowances == map[]
      ensures dotBalance == endowment && payouts == []
      ensures ledger.balances ==
        if 0 < tokenAmount <= old(ledger.BalanceOf(deployer))
        then Move(old(ledger.balances), deployer, account, tokenAmount)
        else old(ledger.balances)
    {
      this.ledger := ledger;
      this.factory := factory;
      this.account := account;
      totalSupply := endowment;
      balances := map[deployer := endowment];
      allowances := map[];
      dotBalance := endowment;
      payouts := [];
      new;
      if tokenAmount > 0 {
        var pulled := ledger.TransferFrom(deployer, account, tokenAmount);
      }
      SumSingleton(deployer, endowment);
    }

    /** `add_liquidity`, payable with `value`: bootstrap an empty pool or join
        a live one as Join decides; the result is the LP shares minted. */
    method AddLiquidity(caller: AccountId, value: nat, now: Timestamp, minLiquidity: nat, maxTokens: nat,
                        deadline: Timestamp)
      returns (r: Result<nat, Error>)
      requires Valid() && caller != account
      modifies this`totalSupply, this`balances, this`dotBalance, ledger`balances
      ensures Valid()
      ensures var j := Join(old(dotBalance), old(TokenReserve()), old(totalSupply), old(ledger.BalanceOf(caller)),
                            now, value, minLiquidity, maxTokens, deadline);
        && (r.Ok? <==> j.Ok?)
        && (r.Err? ==> r.error == j.error && unchanged(this) && unchanged(ledger))
        && (r.Ok? ==>
              && r.value == j.value.minted
              && totalSupply == old(totalSupply) + r.value
              && balances == old(balances)[caller := old(BalanceOf(caller)) + r.value]
              && dotBalance == old(dotBalance) + value
              && ledger.balances == Move(old(ledger.balances), caller, account, j.value.deposit)
              && TokenReserve() == old(TokenReserve()) + j.value.deposit)
    {
      var j := Join(dotBalance, TokenReserve(), totalSupply, ledger.BalanceOf(caller),
                    now, value, minLiquidity, maxTokens, deadline);
      if j.Err? {
        return Err(j.error);
      }
      var held := BalanceOf(caller);
      if totalSupply > 0 {
        balances := balances[caller := held + j.value.minted];
      } else {
        // The bootstrap overwrites the caller's entry, which an empty supply forces to 0.
        GetAtMostSum(balances, caller);
        balances := balances[caller := j.value.minted];
      }
      SumUpdate(old(balances), caller, held + j.value.minted);
      totalSupply := totalSupply + j.value.minted;
      var ok := ledger.TransferFrom(caller, account, j.value.deposit);
      assert ok;
      dotBalance := dotBalance + value;
      r := Ok(j.value.minted);
    }

    /** `remove_liquidity`: burn `amount` of the caller's shares for their
        fraction of both reserves, as Exit decides. */
    method RemoveLiquidity(caller: AccountId, now: Timestamp, amount: nat, minDot: nat, minToken: nat,
                           deadline: Timestamp)
      returns (r: Result<Exited, Error>)
      requires Valid() && caller != account
      modifies this`totalSupply, this`balances, this`dotBalance, this`payouts, ledger`balances
      ensures Valid()
      ensures r == Exit(old(dotBalance), old(TokenReserve()), old(totalSupply), old(balances), caller,
                        now, amount, minDot, minToken, deadline)
      ensures r.Err? ==> unchanged(this) && unchanged(ledger)
      ensures r.Ok? ==>
        && caller in old(balances)
        && balances == old(balances)[caller := old(balances)[caller] - amount]
        && totalSupply == old(totalSupply) - amount
        && dotBalance == old(dotBalance) - r.value.dotOut
        && payouts == old(payouts) + [Payout(caller, r.value.dotOut)]
        && ledger.balances == Move(old(ledger.balances), account, caller, r.value.tokenOut)
        && TokenReserve() == old(TokenReserve()) - r.value.tokenOut
    {
      r := Exit(dotBalance, TokenReserve(), totalSupply, balances, caller, now, amount, minDot, minToken, deadline);
      if r.Err? {
        return;
      }
      ExitWithinReserves(dotBalance, TokenReserve(), totalSupply, balances, caller,
                         now, amount, minDot, minToken, deadline);
      SumUpdate(balances, caller, balances[caller] - amount);
      balances := balances[caller := balances[caller] - amount];
      totalSupply := totalSupply - amount;
      dotBalance := dotBalance - r.value.dotOut;
      payouts := payouts + [Payout(caller, r.value.dotOut)];
      // The source ignores this push's result; it cannot fail.
      var ok := ledger.Transfer(account, caller, r.value.tokenOut);
      assert ok;
    }

    // ---------------------------------------------------------------- quotes

    /** `dot_to_token_input_price`: tokens an exact-input sale of `dotSold`
        would buy now, the most that keeps the fee-adjusted product. */
    function DotToTokenInputPrice(dotSold: nat): (r: Result<nat, Error>)
      reads this, ledger
      ensures dotSold == 0 ==> r == Err(InvalidArgument)
      ensures r.Ok? <==> dotSold > 0 && dotBalance > 0 && TokenReserve() > 0
      ensures r.Ok? ==> r.value < TokenReserve()
      ensures r.Ok? ==> KeepsProduct(dotSold, r.value, dotBalance, TokenReserve())
      ensures r.Ok? ==> !KeepsProduct(dotSold, r.value + 1, dotBalance, TokenReserve())
    {
      if dotSold == 0 then Err(InvalidArgument) else InputPrice(dotSold, dotBalance, TokenReserve())
    }

    /** `dot_to_token_output_price`: native units an exact-output purchase of
        `tokensBought` would cost now, the least that grows the product. */
    function DotToTokenOutputPrice(tokensBought: nat): (r: Result<nat, Error>)
      reads this, ledger
      ensures tokensBought == 0 ==> r == Err(InvalidArgument)
      ensures r.Ok? <==> tokensBought > 0 && dotBalance > 0 && TokenReserve() > tokensBought
      ensures r.Ok? ==> r.value >= 1
      ensures r.Ok? ==> GrowsProduct(r.value, tokensBought, dotBalance, TokenReserve())
      ensures r.Ok? ==> !GrowsProduct(r.value - 1, tokensBought, dotBalance, TokenReserve())
    {
      if tokensBought == 0 then Err(InvalidArgument) else OutputPrice(tokensBought, dotBalance, TokenReserve())
    }

    /** `token_to_dot_input_price`: native units an exact-input sale of
        `tokensSold` would buy now. */
    function TokenToDotInputPrice(tokensSold: nat): (r: Result<nat, Error>)
      reads this, ledger
      ensures tokensSold == 0 ==> r == Err(InvalidArgument)
      ensures r.Ok? <==> tokensSold > 0 && TokenReserve() > 0 && dotBalance > 0
      ensures r.Ok? ==> r.value < dotBalance
      ensures r.Ok? ==> KeepsProduct(tokensSold, r.value, TokenReserve(), dotBalance)
      ensures r.Ok? ==> !KeepsProduct(tokensSold, r.value + 1, TokenReserve(), dotBalance)
    {
      if tokensSold == 0 then Err(InvalidArgument) else InputPrice(tokensSold, TokenReserve(), dotBalance)
    }

    /** `token_to_dot_output_price`: tokens an exact-output purchase of
        `dotBought` would cost now. */
    function TokenToDotOutputPrice(dotBought: nat): (r: Result<nat, Error>)
      reads this, ledger
      ensures dotBought == 0 ==> r == Err(InvalidArgument)
      ensures r.Ok? <==> dotBought > 0 && TokenReserve() > 0 && dotBalance > dotBought
      ensures r.Ok? ==> r.value >= 1
      ensures r.Ok? ==> GrowsProduct(r.value, dotBought, TokenReserve(), dotBalance)
      ensures r.Ok? ==> !GrowsProduct(r.value - 1, dotBought, TokenReserve(), dotBalance)
    {
      if dotBought == 0 then Err(InvalidArgument) else OutputPrice(dotBought, TokenReserve(), dotBalance)
    }

    // ------------------------------------------------------ native -> token

    /** `dot_to_token_input` with `dotSold` sent: pay the tokens SellDot
        decides to `recipient`; the quote made just before agrees. */
    method DotToTokenInput(recipient: AccountId, now: Timestamp, dotSold: nat, minTokens: nat,
                           deadline: Timestamp)
      returns (r: Result<nat, Error>)
      requires Valid() && recipient != account
      modifies this`dotBalance, ledger`balances
      ensures Valid()
      ensures r == SellDot(old(dotBalance), old(TokenReserve()), now, dotSold, minTokens, deadline)
      ensures r.Err? ==> unchanged(this) && unchanged(ledger)
      ensures r.Ok? ==>
        && old(DotToTokenInputPrice(dotSold)) == Ok(r.value)
        && dotBalance == old(dotBalance) + dotSold
        && ledger.balances == Move(old(ledger.balances), account, recipient, r.value)
        && TokenReserve() == old(TokenReserve()) - r.value
        && dotBalance * TokenReserve() >= old(dotBalance) * old(TokenReserve())
    {
      r := SellDot(dotBalance, TokenReserve(), now, dotSold, minTokens, deadline);
      if r.Err? {
        return;
      }
      var ok := ledger.Transfer(account, recipient, r.value);
      assert ok;
      dotBalance := dotBalance + dotSold;
    }

    /** `dot_to_token_swap_input`: the caller buys tokens for all the `value` sent. */
    method DotToTokenSwapInput(caller: AccountId, value: nat, now: Timestamp, minTokens: nat,
                               deadline: Timestamp)
      returns (r: Result<nat, Error>)
      requires Valid() && caller != account
      modifies this`dotBalance, ledger`balances
      ensures Valid()
      ensures r == SellDot(old(dotBalance), old(TokenReserve()), now, value, minTokens, deadline)
      ensures r.Err? ==> unchanged(this) && unchanged(ledger)
      ensures r.Ok? ==>
        && dotBalance == old(dotBalance) + value
        && ledger.balances == Move(old(ledger.balances), account, caller, r.value)
    {
      r := DotToTokenInput(caller, now, value, minTokens, deadline);
    }

    /** `dot_to_token_transfer_input`: as the swap, paying the tokens to a
        `recipient` that is neither the exchange nor the default account. */
    method DotToTokenTransferInput(value: nat, now: Timestamp, minTokens: nat, deadline: Timestamp,
                                   recipient: AccountId)
      returns (r: Result<nat, Error>)
      requires Valid()
      modifies this`dotBalance, ledger`balances
      ensures Valid()
      ensures recipient == account || recipient == DefaultAccount ==> r == Err(InvalidRecipient)
      ensures recipient != account && recipient != DefaultAccount ==>
        r == SellDot(old(dotBalance), old(TokenReserve()), now, value, minTokens, deadline)
      ensures r.Err? ==> unchanged(this) && unchanged(ledger)
      ensures r.Ok? ==>
        && dotBalance == old(dotBalance) + value
        && ledger.balances == Move(old(ledger.balances), account, recipient, r.value)
    {
      if recipient == account || recipient == DefaultAccount {
        return Err(InvalidRecipient);
      }
      r := DotToTokenInput(recipient, now, value, minTokens, deadline);
    }

    /** `dot_to_token_output` with `maxDot` sent: deliver exactly
        `tokensBought` to `recipient`, keep the cost BuyTokens decides and
        refund the rest of `maxDot` to `buyer`. */
    method DotToTokenOutput(buyer: AccountId, recipient: AccountId, now: Timestamp, tokensBought: nat,
                            maxDot: nat, deadline: Timestamp)
      returns (r: Result<nat, Error>)
      requires Valid() && recipient != account
      modifies this`dotBalance, this`payouts, ledger`balances
      ensures Valid()
      ensures r == BuyTokens(old(dotBalance), old(TokenReserve()), now, tokensBought, maxDot, deadline)
      ensures r.Err? ==> unchanged(this) && unchanged(ledger)
      ensures r.Ok? ==>
        && old(DotToTokenOutputPrice(tokensBought)) == Ok(r.value)
        && dotBalance == old(dotBalance) + r.value
        && payouts == old(payouts) + (if r.value < maxDot then [Payout(buyer, maxDot - r.value)] else [])
        && ledger.balances == Move(old(ledger.balances), account, recipient, tokensBought)
        && TokenReserve() == old(TokenReserve()) - tokensBought
        && dotBalance * TokenReserve() > old(dotBalance) * old(TokenReserve())
    {
      r := BuyTokens(dotBalance, TokenReserve(), now, tokensBought, maxDot, deadline);
      if r.Err? {
        return;
      }
      dotBalance := dotBalance + maxDot;
      var refund := maxDot - r.value;
      if refund > 0 {
        dotBalance := dotBalance - refund;
        payouts := payouts + [Payout(buyer, refund)];
      }
      var ok := ledger.Transfer(account, recipient, tokensBought);
      assert ok;
    }

    /** `dot_to_token_swap_output`: the caller buys exactly `tokensBought`,
        sending at most `value`. */
    method DotToTokenSwapOutput(caller: AccountId, value: nat, now: Timestamp, tokensBought: nat,
                                deadline: Timestamp)
      returns (r: Result<nat, Error>)
      requires Valid() && caller != account
      modifies this`dotBalance, this`payouts, ledger`balances
      ensures Valid()
      ensures r == BuyTokens(old(dotBalance), old(TokenReserve()), now, tokensBought, value, deadline)
      ensures r.Err? ==> unchanged(this) && unchanged(ledger)
      ensures r.Ok? ==>
        && dotBalance == old(dotBalance) + r.value
        && payouts == old(payouts) + (if r.value < value then [Payout(caller, value - r.value)] else [])
        && ledger.balances == Move(old(ledger.balances), account, caller, tokensBought)
    {
      r := DotToTokenOutput(caller, caller, now, tokensBought, value, deadline);
    }

    /** `dot_to_token_transfer_output`: as the swap, delivering to a
        `recipient` that is neither the exchange nor the default account; the
        refund still goes to the caller. */
    method DotToTokenTransferOutput(caller: AccountId, value: nat, now: Timestamp, tokensBought: nat,
                                    deadline: Timestamp, recipient: AccountId)
      returns (r: Result<nat, Error>)
      requires Valid()
      modifies this`dotBalance, this`payouts, ledger`balances
      ensures Valid()
      ensures recipient == account || recipient == DefaultAccount ==> r == Err(InvalidRecipient)
      ensures recipient != account && recipient != DefaultAccount ==>
        r == BuyTokens(old(dotBalance), old(TokenReserve()), now, tokensBought, value, deadline)
      ensures r.Err? ==> unchanged(this) && unchanged(ledger)
      ensures r.Ok? ==>
        && dotBalance == old(dotBalance) + r.value
        && payouts == old(payouts) + (if r.value < value then [Payout(caller, value - r.value)] else [])
        && ledger.balances == Move(old(ledger.balances), account, recipient, tokensBought)
    {
      if recipient == account || recipient == DefaultAccount {
        return Err(InvalidRecipient);
      }
      r := DotToTokenOutput(caller, recipient, now, tokensBought, value, deadline);
    }

    // ------------------------------------------------------ token -> native

    /** `token_to_dot_input`: pull exactly `tokensSold` from `buyer` and pay
        the native amount SellTokens decides to `recipient`. */
    method TokenToDotInput(buyer: AccountId, recipient: AccountId, now: Timestamp, tokensSold: nat,
                           minDot: nat, deadline: Timestamp)
      returns (r: Result<nat, Error>)
      requires Valid() && buyer != account
      modifies this`dotBalance, this`payouts, ledger`balances
      ensures Valid()
      ensures r == SellTokens(old(dotBalance), old(TokenReserve()), old(ledger.BalanceOf(buyer)),
                              now, tokensSold, minDot, deadline)
      ensures r.Err? ==> unchanged(this) && unchanged(ledger)
      ensures r.Ok? ==>
        && old(TokenToDotInputPrice(tokensSold)) == Ok(r.value)
        && dotBalance == old(dotBalance) - r.value
        && payouts == old(payouts) + [Payout(recipient, r.value)]
        && ledger.balances == Move(old(ledger.balances), buyer, account, tokensSold)
        && TokenReserve() == old(TokenReserve()) + tokensSold
        && dotBalance * TokenReserve() >= old(dotBalance) * old(TokenReserve())
    {
      var d0, t0 := dotBalance, TokenReserve();
      r := SellTokens(d0, t0, ledger.BalanceOf(buyer), now, tokensSold, minDot, deadline);
      if r.Err? {
        return;
      }
      dotBalance := dotBalance - r.value;
      payouts := payouts + [Payout(recipient, r.value)];
      var ok := ledger.TransferFrom(buyer, account, tokensSold);
      assert ok;
      var d1, t1 := dotBalance, TokenReserve();
      assert d1 == d0 - r.value && t1 == t0 + tokensSold;
      assert d1 * t1 == t1 * d1 && d0 * t0 == t0 * d0;
    }

    /** `token_to_dot_swap_input`: the caller sells exactly `tokensSold`. */
    method TokenToDotSwapInput(caller: AccountId, now: Timestamp, tokensSold: nat, minDot: nat,
                               deadline: Timestamp)
      returns (r: Result<nat, Error>)
      requires Valid() && caller != account
      modifies this`dotBalance, this`payouts, ledger`balances
      ensures Valid()
      ensures r == SellTokens(old(dotBalance), old(TokenReserve()), old(ledger.BalanceOf(caller)),
                              now, tokensSold, minDot, deadline)
      ensures r.Err? ==> unchanged(this) && unchanged(ledger)
      ensures r.Ok? ==>
        && dotBalance == old(dotBalance) - r.value
        && payouts == old(payouts) + [Payout(caller, r.value)]
        && ledger.balances == Move(old(ledger.balances), caller, account, tokensSold)
    {
      r := TokenToDotInput(caller, caller, now, tokensSold, minDot, deadline);
    }

    /** `token_to_dot_transfer_input`: as the swap, paying `recipient`; only the
        exchange itself is refused, the default account is accepted. */
    method TokenToDotTransferInput(caller: AccountId, now: Timestamp, tokensSold: nat, minDot: nat,
                                   deadline: Timestamp, recipient: AccountId)
      returns (r: Result<nat, Error>)
      requires Valid() && caller != account
      modifies this`dotBalance, this`payouts, ledger`balances
      ensures Valid()
      ensures recipient == account ==> r == Err(InvalidRecipient)
      ensures recipient != account ==>
        r == SellTokens(old(dotBalance), old(TokenReserve()), old(ledger.BalanceOf(caller)),
                        now, tokensSold, minDot, deadline)
      ensures r.Err? ==> unchanged(this) && unchanged(ledger)
      ensures r.Ok? ==>
        && dotBalance == old(dotBalance) - r.value
        && payouts == old(payouts) + [Payout(recipient, r.value)]
        && ledger.balances == Move(old(ledger.balances), caller, account, tokensSold)
    {
      if recipient == account {
        return Err(InvalidRecipient);
      }
      r := TokenToDotInput(caller, recipient, now, tokensSold, minDot, deadline);
    }

    /** `token_to_dot_output`: pay exactly `dotBought` to `recipient` and pull
        from `buyer` the tokens BuyDot decides. */
    method TokenToDotOutput(buyer: AccountId, recipient: AccountId, now: Timestamp, dotBought: nat,
                            maxTokens: nat, deadline: Timestamp)
      returns (r: Result<nat, Error>)
      requires Valid() && buyer != account
      modifies this`dotBalance, this`payouts, ledger`balances
      ensures Valid()
      ensures r == BuyDot(old(dotBalance), old(TokenReserve()), old(ledger.BalanceOf(buyer)),
                          now, dotBought, maxTokens, deadline)
      ensures r.Err? ==> unchanged(this) && unchanged(ledger)
      ensures r.Ok? ==>
        && old(TokenToDotOutputPrice(dotBought)) == Ok(r.value)
        && dotBalance == old(dotBalance) - dotBought
        && payouts == old(payouts) + [Payout(recipient, dotBought)]
        && ledger.balances == Move(old(ledger.balances), buyer, account, r.value)
        && TokenReserve() == old(TokenReserve()) + r.value
        && dotBalance * TokenReserve() > old(dotBalance) * old(TokenReserve())
    {
      var d0, t0 := dotBalance, TokenReserve();
      r := BuyDot(d0, t0, ledger.BalanceOf(buyer), now, dotBought, maxTokens, deadline);
      if r.Err? {
        return;
      }
      dotBalance := dotBalance - dotBought;
      payouts := payouts + [Payout(recipient, dotBought)];
      var ok := ledger.TransferFrom(buyer, account, r.value);
      assert ok;
      var d1, t1 := dotBalance, TokenReserve();
      assert d1 == d0 - dotBought && t1 == t0 + r.value;
      assert d1 * t1 == t1 * d1 && d0 * t0 == t0 * d0;
    }

    /** `token_to_dot_swap_output`: the caller buys exactly `dotBought`. */
    method TokenToDotSwapOutput(caller: AccountId, now: Timestamp, dotBought: nat, maxTokens: nat,
                                deadline: Timestamp)
      returns (r: Result<nat, Error>)
      requires Valid() && caller != account
      modifies this`dotBalance, this`payouts, ledger`balances
      ensures Valid()
      ensures r == BuyDot(old(dotBalance), old(TokenReserve()), old(ledger.BalanceOf(caller)),
                          now, dotBought, maxTokens, deadline)
      ensures r.Err? ==> unchanged(this) && unchanged(ledger)
      ensures r.Ok? ==>
        && dotBalance == old(dotBalance) - dotBought
        && payouts == old(payouts) + [Payout(caller, dotBought)]
        && ledger.balances == Move(old(ledger.balances), caller, account, r.value)
    {
      r := TokenToDotOutput(caller, caller, now, dotBought, maxTokens, deadline);
    }

    /** `token_to_dot_transfer_output`: as the swap, paying a `recipient` that
        is neither the exchange nor the default account. */
    method TokenToDotTransferOutput(caller: AccountId, now: Timestamp, dotBought: nat, maxTokens: nat,
                                    deadline: Timestamp, recipient: AccountId)
      returns (r: Result<nat, Error>)
      requires Valid() && caller != account
      modifies this`dotBalance, this`payouts, ledger`balances
      ensures Valid()
      ensures recipient == account || recipient == DefaultAccount ==> r == Err(InvalidRecipient)
      ensures recipient != account && recipient != DefaultAccount ==>
        r == BuyDot(old(dotBalance), old(TokenReserve()), old(ledger.BalanceOf(caller)),
                    now, dotBought, maxTokens, deadline)
      ensures r.Err? ==> unchanged(this) && unchanged(ledger)
      ensures r.Ok? ==>
        && dotBalance == old(dotBalance) - dotBought
        && payouts == old(payouts) + [Payout(recipient, dotBought)]
        && ledger.balances == Move(old(ledger.balances), caller, account, r.value)
    {
      if recipient == account || recipient == DefaultAccount {
        return Err(InvalidRecipient);
      }
      r := TokenToDotOutput(caller, recipient, now, dotBought, maxTokens, deadline);
    }

    // ------------------------------------------- local legs of token -> token

    /** `token_to_token_input`, this exchange's leg: pull `tokensSold` from
        `buyer` and send the native amount bought to the peer `exchange`,
        whose answer is `peer`; the result is the peer's token amount. */
    method TokenToTokenInput(buyer: AccountId, now: Timestamp, tokensSold: nat, minTokensBought: nat,
                             minDotBought: nat, deadline: Timestamp, exchange: AccountId,
                             peer: Result<nat, Error>)
      returns (r: Result<nat, Error>)
      requires Valid() && buyer != account
      modifies this`dotBalance, this`payouts, ledger`balances
      ensures Valid()
      ensures var h := SellTokensToPeer(account, old(dotBalance), old(TokenReserve()), old(ledger.BalanceOf(buyer)),
                                        now, tokensSold, minTokensBought, minDotBought, deadline, exchange, peer);
        && (r.Ok? <==> h.Ok?)
        && (r.Err? ==> r.error == h.error && unchanged(this) && unchanged(ledger))
        && (r.Ok? ==>
              && r.value == h.value.tokens
              && dotBalance == old(dotBalance) - h.value.dotMoved
              && payouts == old(payouts) + [Payout(exchange, h.value.dotMoved)]
              && ledger.balances == Move(old(ledger.balances), buyer, account, tokensSold))
    {
      var h := SellTokensToPeer(account, dotBalance, TokenReserve(), ledger.BalanceOf(buyer),
                                now, tokensSold, minTokensBought, minDotBought, deadline, exchange, peer);
      if h.Err? {
        return Err(h.error);
      }
      var ok := ledger.TransferFrom(buyer, account, tokensSold);
      assert ok;
      dotBalance := dotBalance - h.value.dotMoved;
      payouts := payouts + [Payout(exchange, h.value.dotMoved)];
      r := Ok(h.value.tokens);
    }

    /** `token_to_token_output`, this exchange's leg: price the peer's native
        quote `peerQuote` here, pull the tokens from `buyer` and pay the peer,
        whose answer is `peerSwap`; the result is the tokens sold here. */
    method TokenToTokenOutput(buyer: AccountId, maxTokensSold: nat, maxDotSold: nat, exchange: AccountId,
                              peerQuote: Result<nat, Error>, peerSwap: Result<nat, Error>)
      returns (r: Result<nat, Error>)
      requires Valid() && buyer != account
      modifies this`dotBalance, this`payouts, ledger`balances
      ensures Valid()
      ensures var h := BuyThroughPeer(account, old(dotBalance), old(TokenReserve()), old(ledger.BalanceOf(buyer)),
                                      maxTokensSold, maxDotSold, exchange, peerQuote, peerSwap);
        && (r.Ok? <==> h.Ok?)
        && (r.Err? ==> r.error == h.error && unchanged(this) && unchanged(ledger))
        && (r.Ok? ==>
              && r.value == h.value.tokens
              && dotBalance == old(dotBalance) - h.value.dotMoved
              && payouts == old(payouts) + [Payout(exchange, h.value.dotMoved)]
              && ledger.balances == Move(old(ledger.balances), buyer, account, r.value))
    {
      var h := BuyThroughPeer(account, dotBalance, TokenReserve(), ledger.BalanceOf(buyer),
                              maxTokensSold, maxDotSold, exchange, peerQuote, peerSwap);
      if h.Err? {
        return Err(h.error);
      }
      var ok := ledger.TransferFrom(buyer, account, h.value.tokens);
      assert ok;
      dotBalance := dotBalance - h.value.dotMoved;
      payouts := payouts + [Payout(exchange, h.value.dotMoved)];
      r := Ok(h.value.tokens);
    }

    // ------------------------------------------------------ LP share ledger

    /** `balance_of`: LP shares held by `owner`, 0 when absent. */
    function BalanceOf(owner: AccountId): (r: nat)
      reads this
      ensures owner !in balances ==> r == 0
      ensures owner in balances ==> r == balances[owner]
    {
      Get(balances, owner)
    }

    /** The `(owner, spender)` LP allowance, 0 when absent. */
    function Allowance(owner: AccountId, spender: AccountId): (r: nat)
      reads this
      ensures (owner, spender) !in allowances ==> r == 0
      ensures (owner, spender) in allowances ==> r == allowances[(owner, spender)]
    {
      Get(allowances, (owner, spender))
    }

    /** `transfer_from_to` on LP shares: refuse when `from` is short,
        otherwise move `value` keeping the supply. */
    method TransferFromTo(from: AccountId, to: AccountId, value: nat) returns (ok: bool)
      requires Valid()
      modifies this`balances
      ensures Valid()
      ensures ok <==> value <= old(BalanceOf(from))
      ensures balances == if ok then Move(old(balances), from, to, value) else old(balances)
    {
      var fromBalance := BalanceOf(from);
      if fromBalance < value {
        return false;
      }
      balances := balances[from := fromBalance - value];
      var toBalance := BalanceOf(to);
      balances := balances[to := toBalance + value];
      MovePreservesSum(old(balances), from, to, value);
      ok := true;
    }

    /** `transfer`: move LP shares out of the caller's own balance. */
    method Transfer(caller: AccountId, to: AccountId, value: nat) returns (ok: bool)
      requires Valid()
      modifies this`balances
      ensures Valid()
      ensures ok <==> value <= old(BalanceOf(caller))
      ensures balances == if ok then Move(old(balances), caller, to, value) else old(balances)
    {
      ok := TransferFromTo(caller, to, value);
    }

    /** `transfer_from`: spend the caller's allowance from `from`, then move.
        The allowance is spent before the balance is checked, so a move that
        is then refused still leaves the allowance reduced. */
    method TransferFrom(caller: AccountId, from: AccountId, to: AccountId, value: nat) returns (ok: bool)
      requires Valid()
      modifies this`balances, this`allowances
      ensures Valid()
      ensures ok <==> value <= old(Allowance(from, caller)) && value <= old(BalanceOf(from))
      ensures allowances ==
        if value <= old(Allowance(from, caller))
        then old(allowances)[(from, caller) := old(Allowance(from, caller)) - value]
        else old(allowances)
      ensures balances == if ok then Move(old(balances), from, to, value) else old(balances)
    {
      var allowance := Allowance(from, caller);
      if allowance < value {
        return false;
      }
      allowances := allowances[(from, caller) := allowance - value];
      ok := TransferFromTo(from, to, value);
    }

    /** `approve`: overwrite (not add to) the caller's LP allowance for `spender`. */
    method Approve(caller: AccountId, spender: AccountId, value: nat) returns (ok: bool)
      modifies this`allowances
      ensures ok
      ensures allowances == old(allowances)[(caller, spender) := value]
      ensures Allowance(caller, spender) == value
    {
      allowances := allowances[(caller, spender) := value];
      ok := true;
    }
  }

  /** The LP ledger's unit tests, continued: a holder of 50000 shares sends
      200, then moves 200 more through an allowance granted to itself; a
      refused move through a fresh allowance still spends that allowance. */
  method LiquidityLedgerScenario(alice: AccountId, bob: AccountId, account: AccountId)
    returns (sent: bool, sentFrom: bool, refused: bool, left: nat)
    requires alice != bob
    ensures sent && sentFrom && refused
    ensures left == 500
  {
    var token := new Token.Erc20(alice, 0);
    var ex := new Exchange(token, 0, account, alice, 0, 50000);
    sent := ex.Transfer(alice, bob, 200);
    assert ex.BalanceOf(alice) == 49800 && ex.BalanceOf(bob) == 200;
    var approved := ex.Approve(alice, alice, 500);
    sentFrom := ex.TransferFrom(alice, alice, bob, 200);
    assert ex.BalanceOf(bob) == 400;
    approved := ex.Approve(bob, alice, 1000);
    assert ex.BalanceOf(bob) == 400 && ex.Allowance(bob, alice) == 1000;
    var moved := ex.TransferFrom(alice, bob, alice, 500);
    refused := !moved;
    left := ex.Allowance(bob, alice);
  }
}
