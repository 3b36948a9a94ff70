/** What each swap decides, as a function of the exchange's reserves before the
    call and the call's arguments: the amount it trades, or the reason it
    aborts, checked in the contract's own order. `dotReserve` is always the
    native balance the exchange held before the call (for a payable message:
    its balance minus the value sent with it). */
module Swaps {
  import opened Base
  import opened Pricing

  /** `dot_to_token_input`: sell exactly `dotSold` native units; the result is
      the number of tokens bought. */
  function SellDot(dotReserve: nat, tokenReserve: nat, now: Timestamp, dotSold: nat, minTokens: nat,
                   deadline: Timestamp)
    : (r: Result<nat, Error>)
    ensures !(deadline >= now && dotSold > 0 && minTokens > 0) ==> r == Err(InvalidArgument)
    ensures r.Ok? <==>
      && deadline >= now && dotSold > 0 && minTokens > 0 && dotReserve > 0 && tokenReserve > 0
      && Bought(dotSold, dotReserve, tokenReserve) >= minTokens
    ensures r.Ok? ==> r.value == Bought(dotSold, dotReserve, tokenReserve)
    ensures r.Ok? ==> minTokens <= r.value < tokenReserve
    ensures r.Ok? ==> (dotReserve + dotSold) * (tokenReserve - r.value) >= dotReserve * tokenReserve
  {
    if !(deadline >= now && dotSold > 0 && minTokens > 0) then
      Err(InvalidArgument)
    else
      match InputPrice(dotSold, dotReserve, tokenReserve)
      case Err(e) => Err(e)
      case Ok(bought) =>
        if bought < minTokens then Err(SlippageExceeded)
        else
          BoughtKeepsRawProduct(dotSold, dotReserve, tokenReserve);
          Ok(bought)
  }

  /** `dot_to_token_output`: buy exactly `tokensBought` tokens paying at most
      the `maxDot` sent; the result is the native amount kept, the rest of
      `maxDot` being refunded. */
  function BuyTokens(dotReserve: nat, tokenReserve: nat, now: Timestamp, tokensBought: nat, maxDot: nat,
                     deadline: Timestamp)
    : (r: Result<nat, Error>)
    ensures !(deadline >= now && tokensBought > 0 && maxDot > 0) ==> r == Err(InvalidArgument)
    ensures r.Ok? <==>
      && deadline >= now && tokensBought > 0 && maxDot > 0
      && dotReserve > 0 && tokenReserve > 0 && tokensBought < tokenReserve
      && Cost(tokensBought, dotReserve, tokenReserve) <= maxDot
    ensures r.Ok? ==> r.value == Cost(tokensBought, dotReserve, tokenReserve)
    ensures r.Ok? ==> 1 <= r.value <= maxDot
    ensures r.Ok? ==> (dotReserve + r.value) * (tokenReserve - tokensBought) > dotReserve * tokenReserve
  {
    if !(deadline >= now && tokensBought > 0 && maxDot > 0) then
      Err(InvalidArgument)
    else
      match OutputPrice(tokensBought, dotReserve, tokenReserve)
      case Err(e) => Err(e)
      case Ok(sold) =>
        if sold > maxDot then Err(Overpriced)
        else
          CostGrowsRawProduct(tokensBought, dotReserve, tokenReserve);
          Ok(sold)
  }

  /** `token_to_dot_input`: sell exactly `tokensSold` tokens out of the buyer's
      `buyerTokens`; the result is the native amount bought. The pull of the
      tokens comes last, after the price checks. */
  function SellTokens(dotReserve: nat, tokenReserve: nat, buyerTokens: nat, now: Timestamp,
                      tokensSold: nat, minDot: nat, deadline: Timestamp)
    : (r: Result<nat, Error>)
    ensures !(deadline >= now && tokensSold > 0 && minDot > 0) ==> r == Err(InvalidArgument)
    ensures r.Ok? <==>
      && deadline >= now && tokensSold > 0 && minDot > 0 && tokenReserve > 0 && dotReserve > 0
      && Bought(tokensSold, tokenReserve, dotReserve) > minDot
      && tokensSold <= buyerTokens
    ensures r.Ok? ==> r.value == Bought(tokensSold, tokenReserve, dotReserve)
    ensures r.Ok? ==> minDot < r.value < dotReserve
    ensures r.Ok? ==> (tokenReserve + tokensSold) * (dotReserve - r.value) >= tokenReserve * dotReserve
  {
    if !(deadline >= now && tokensSold > 0 && minDot > 0) then
      Err(InvalidArgument)
    else
      match InputPrice(tokensSold, tokenReserve, dotReserve)
      case Err(e) => Err(e)
      case Ok(bought) =>
        if bought <= minDot then Err(SlippageExceeded)
        else if tokensSold > buyerTokens then Err(TransferFailed)
        else
          BoughtKeepsRawProduct(tokensSold, tokenReserve, dotReserve);
          Ok(bought)
  }

  /** `token_to_dot_output`: buy exactly `dotBought` native units selling at
      most `maxTokens` of the buyer's `buyerTokens`; the result is the number
      of tokens sold. */
  function BuyDot(dotReserve: nat, tokenReserve: nat, buyerTokens: nat, now: Timestamp,
                  dotBought: nat, maxTokens: nat, deadline: Timestamp)
    : (r: Result<nat, Error>)
    ensures !(deadline >= now && dotBought > 0) ==> r == Err(InvalidArgument)
    ensures r.Ok? <==>
      && deadline >= now && dotBought > 0
      && tokenReserve > 0 && dotReserve > 0 && dotBought < dotReserve
      && Cost(dotBought, tokenReserve, dotReserve) <= maxTokens
      && Cost(dotBought, tokenReserve, dotReserve) <= buyerTokens
    ensures r.Ok? ==> r.value == Cost(dotBought, tokenReserve, dotReserve)
    ensures r.Ok? ==> 1 <= r.value <= maxTokens
    ensures r.Ok? ==> (tokenReserve + r.value) * (dotReserve - dotBought) > tokenReserve * dotReserve
  {
    if !(deadline >= now && dotBought > 0) then
      Err(InvalidArgument)
    else
      match OutputPrice(dotBought, tokenReserve, dotReserve)
      case Err(e) => Err(e)
      case Ok(sold) =>
        if sold > maxTokens then Err(SlippageExceeded)
        else if sold > buyerTokens then Err(TransferFailed)
        else
          CostGrowsRawProduct(dotBought, tokenReserve, dotReserve);
          Ok(sold)
  }

  /** The local leg of a token-to-token trade: the native amount sent on to
      the peer exchange and this exchange's own token amount. */
  datatype Hop = Hop(dotMoved: nat, tokens: nat)

  /** `token_to_token_input`: sell exactly `tokensSold` tokens here for native
      units, then spend all of them at the peer exchange `exchange`, whose
      answer (the tokens it bought, or its failure) is `peer`. The result's
      `tokens` is what the peer bought. A call from the exchange to itself
      fails, as a contract is not re-entered. */
  function SellTokensToPeer(self: AccountId, dotReserve: nat, tokenReserve: nat, buyerTokens: nat,
                            now: Timestamp, tokensSold: nat, minTokensBought: nat, minDotBought: nat,
                            deadline: Timestamp, exchange: AccountId, peer: Result<nat, Error>)
    : (r: Result<Hop, Error>)
    ensures !(deadline >= now && tokensSold > 0 && minDotBought > 0 && minTokensBought > 0) ==>
      r == Err(InvalidArgument)
    ensures r.Ok? <==>
      && deadline >= now && tokensSold > 0 && minDotBought > 0 && minTokensBought > 0
      && tokenReserve > 0 && dotReserve > 0
      && Bought(tokensSold, tokenReserve, dotReserve) >= minDotBought
      && tokensSold <= buyerTokens && exchange != self && peer.Ok?
    ensures r.Ok? ==> r.value == Hop(Bought(tokensSold, tokenReserve, dotReserve), peer.value)
    ensures r.Ok? ==> minDotBought <= r.value.dotMoved < dotReserve
    ensures r.Ok? ==>
      (tokenReserve + tokensSold) * (dotReserve - r.value.dotMoved) >= tokenReserve * dotReserve
  {
    if !(deadline >= now && tokensSold > 0 && minDotBought > 0 && minTokensBought > 0) then
      Err(InvalidArgument)
    else
      match InputPrice(tokensSold, tokenReserve, dotReserve)
      case Err(e) => Err(e)
      case Ok(dotBought) =>
        if dotBought < minDotBought then Err(SlippageExceeded)
        else if tokensSold > buyerTokens then Err(TransferFailed)
        else if exchange == self || peer.Err? then Err(TransferFailed)
        else
          BoughtKeepsRawProduct(tokensSold, tokenReserve, dotReserve);
          Ok(Hop(dotBought, peer.value))
  }

  /** `token_to_token_output`: ask the peer exchange `exchange` what its
      `tokens_bought` cost in native units (`peerQuote`), sell just enough
      tokens here to buy that, and pay the peer, whose answer is `peerSwap`.
      The result's `tokens` is the number of tokens sold here. Unlike the
      other swaps this leg checks neither the deadline nor zero amounts; the
      peer's own call checks them. */
  function BuyThroughPeer(self: AccountId, dotReserve: nat, tokenReserve: nat, buyerTokens: nat,
                          maxTokensSold: nat, maxDotSold: nat, exchange: AccountId,
                          peerQuote: Result<nat, Error>, peerSwap: Result<nat, Error>)
    : (r: Result<Hop, Error>)
    ensures exchange == self || exchange == DefaultAccount ==> r == Err(InvalidExchange)
    ensures r.Ok? <==>
      && exchange != self && exchange != DefaultAccount && peerQuote.Ok?
      && tokenReserve > 0 && dotReserve > 0 && peerQuote.value < dotReserve
      && Cost(peerQuote.value, tokenReserve, dotReserve) <= maxTokensSold
      && peerQuote.value <= maxDotSold
      && Cost(peerQuote.value, tokenReserve, dotReserve) <= buyerTokens
      && peerSwap.Ok?
    ensures r.Ok? ==> r.value == Hop(peerQuote.value, Cost(peerQuote.value, tokenReserve, dotReserve))
    ensures r.Ok? ==> 1 <= r.value.tokens <= maxTokensSold && r.value.dotMoved <= maxDotSold
    ensures r.Ok? ==>
      (tokenReserve + r.value.tokens) * (dotReserve - r.value.dotMoved) > tokenReserve * dotReserve
  {
    if exchange == self || exchange == DefaultAccount then
      Err(InvalidExchange)
    else if peerQuote.Err? then
      Err(TransferFailed)
    else
      var dotBought := peerQuote.value;
      match OutputPrice(dotBought, tokenReserve, dotReserve)
      case Err(e) => Err(e)
      case Ok(sold) =>
        if !(maxTokensSold >= sold && maxDotSold >= dotBought) then Err(SlippageExceeded)
        else if sold > buyerTokens then Err(TransferFailed)
        else if peerSwap.Err? then Err(TransferFailed)
        else
          CostGrowsRawProduct(dotBought, tokenReserve, dotReserve);
          Ok(Hop(dotBought, sold))
  }

  /** In a token-to-token trade, selling more tokens here never sends less
      native currency on to the peer exchange. */
  lemma SellMoreMovesMore(self: AccountId, dotReserve: nat, tokenReserve: nat, buyerTokens: nat,
                          now: Timestamp, sold1: nat, sold2: nat, minTokensBought: nat,
                          minDotBought: nat, deadline: Timestamp, exchange: AccountId,
                          peer1: Result<nat, Error>, peer2: Result<nat, Error>)
    requires sold1 <= sold2
    requires SellTokensToPeer(self, dotReserve, tokenReserve, buyerTokens, now, sold1, minTokensBought,
                              minDotBought, deadline, exchange, peer1).Ok?
    requires SellTokensToPeer(self, dotReserve, tokenReserve, buyerTokens, now, sold2, minTokensBought,
                              minDotBought, deadline, exchange, peer2).Ok?
    ensures SellTokensToPeer(self, dotReserve, tokenReserve, buyerTokens, now, sold1, minTokensBought,
                             minDotBought, deadline, exchange, peer1).value.dotMoved
         <= SellTokensToPeer(self, dotReserve, tokenReserve, buyerTokens, now, sold2, minTokensBought,
                             minDotBought, deadline, exchange, peer2).value.dotMoved
  {
    BoughtMonotone(sold1, sold2, tokenReserve, dotReserve);
  }
}
