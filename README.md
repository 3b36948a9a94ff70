# zenlink-wasm-v1 exchange, token ledger and registry in Dafny

This project models the three ink! contracts of zenlink-wasm-v1 and proves properties about them:

- **exchange**: a Uniswap-v1-style constant-product market for one token and the chain's native currency ("dot"), with a 0.3% fee. It also keeps a ledger of liquidity-provider (LP) shares.
- **erc20**: the token ledger the exchange trades against.
- **factory**: the registry that maps each token to its single exchange.

The chain environment is modelled as state and parameters:

- The exchange's native balance is the field `dotBalance`.
- Every native transfer out of the exchange is appended to `payouts`.
- The token reserve is the exchange's own balance in a composed `Erc20` ledger object.
- The caller, the block timestamp and the value sent with a payable message are method arguments.

Every `assert!`, `unwrap`, `expect`, subtraction underflow and division by zero becomes an `Err`/`Fail` result. Each message checks everything before it changes anything, so an error leaves all state, the token ledger included, exactly as it was. This is the all-or-nothing behaviour the chain gives an aborted call.

Each message is proved against a pure function of the state before the call. Those functions carry the pricing and share properties:

- `Swaps.SellDot` and its siblings for the swaps.
- `Liquidity.Join` and `Liquidity.Exit` for adding and removing liquidity.
- `Pricing.InputPrice` and `Pricing.OutputPrice` for the formulas.

Modules, one per file:

- `Base`: accounts, hashes, errors, `Result`.
- `Ledger`: balance maps, `Move` and `Sum`.
- `Erc20`: the token ledger.
- `Arith`: floor division and monotonicity steps.
- `Pricing`: `input_price` and `output_price`.
- `Shares`: LP join and exit arithmetic.
- `Liquidity`: what `add_liquidity` and `remove_liquidity` decide.
- `Swaps`: what each swap decides.
- `Exchange`: the exchange contract.
- `Factory`: the registry.

Where the code departs from the usual ERC-20 and Uniswap-v1 behaviour, the model follows the code:

- `token_to_dot_transfer_input` rejects only the exchange itself as recipient, not the default account.
- The LP `transfer_from` spends the allowance before it checks the balance. A move refused for lack of balance therefore still leaves the allowance reduced, because a `false` return does not undo storage writes.
- The token ledger's `transfer_from` reads no allowance at all.

## Model

| member | source | states |
|---|---|---|
| Ledger.Get | erc20/lib.rs:134-140 | the `*_or_zero` lookup: the stored amount for a present key, 0 for an absent one |
| Ledger.Move | erc20/lib.rs:112-132 | when the sender holds at least `value`, the sender loses exactly `value` and the receiver gains it; every other balance is unchanged; a self-transfer changes nothing |
| Ledger.MovePreservesSum | erc20/lib.rs:118-123 | a transfer keeps the sum of all balances, including when from == to |
| Erc20.Erc20.constructor | erc20/lib.rs:42-58 | the caller holds exactly the initial supply; the total supply equals it and equals the sum of balances; there are no allowances |
| Erc20.Erc20.BalanceOf | erc20/lib.rs:73-75 | the stored balance, or 0 for an account not in the map |
| Erc20.Erc20.Allowance | erc20/lib.rs:91-93 | the stored allowance, or 0 for a pair not in the map |
| Erc20.Erc20.Approve | erc20/lib.rs:78-88 | overwrites (does not add to) the (caller, spender) allowance and returns true |
| Erc20.Erc20.TransferFromTo | erc20/lib.rs:112-132 | returns true iff the sender holds at least `value`; on true the balances become `Move(...)`, on false nothing changes; the sum of balances still equals the total supply |
| Erc20.Erc20.Transfer | erc20/lib.rs:107-110 | a `TransferFromTo` out of the caller's balance |
| Erc20.Erc20.TransferFrom | erc20/lib.rs:96-104 | a `TransferFromTo` out of `from` whatever the caller; allowances and total supply cannot change (frame) |
| Erc20.TransferScenario | erc20/lib.rs:244-268 | the unit tests' outcomes (sending 10 of 100 succeeds, a later send of 100 is refused, a transfer_from of 10 succeeds), plus one case beyond them: the transfer_from is made with no approval at all and still succeeds, because allowances are never read |
| Pricing.Bought | exchange/lib.rs:263-269 | the input-price formula with both reserves positive: strictly below the output reserve, keeps the fee-adjusted product, and one more unit would not |
| Pricing.InputPrice | exchange/lib.rs:263-269 | aborts (InvalidReserve) iff a reserve is 0; otherwise returns the largest output that keeps the fee-adjusted product, strictly below the output reserve |
| Pricing.BoughtMaximal | exchange/lib.rs:263-269 | every output that keeps the fee-adjusted product is at most the input price |
| Pricing.BoughtKeepsRawProduct | exchange/lib.rs:263-269 | (R_in + a)(R_out - input_price) >= R_in R_out |
| Pricing.BoughtMonotone | exchange/lib.rs:263-269 | selling more never buys less |
| Pricing.Cost | exchange/lib.rs:271-276 | the output-price formula for out < R_out: at least 1, strictly grows the fee-adjusted product, and one unit less would not |
| Pricing.OutputPrice | exchange/lib.rs:271-276 | Ok iff both reserves are positive and out < R_out; InvalidReserve for an empty reserve, DepletedReserve otherwise; the least input that grows the fee-adjusted product |
| Pricing.CostMinimal | exchange/lib.rs:271-276 | every input that grows the fee-adjusted product is at least the output price |
| Pricing.CostGrowsRawProduct | exchange/lib.rs:271-276 | (R_in + output_price)(R_out - out) > R_in R_out |
| Pricing.OutputThenInput | exchange/lib.rs:271-276 | input_price(output_price(out)) >= out |
| Pricing.CostMonotone | exchange/lib.rs:271-276 | buying more never costs less |
| Pricing.BoughtDepth | exchange/lib.rs:993-1012 | with equal reserves, deeper reserves buy at least as much for the same input (the test's bought_amount > bought_amount_2) |
| Pricing.CostDepth | exchange/lib.rs:971-991 | with equal reserves, shallower reserves cost at least as much for the same output (the test's sell_amount_2 > sell_amount) |
| Pricing.PriceExamples | exchange/lib.rs:971-1012 | the tests' concrete prices: input 40 buys 39 at depth 200000 and 33 at depth 200; output 40 costs 41 and 51 |
| Shares.JoinTokens | exchange/lib.rs:167 | tokens pulled on a join: strictly more than v T / D, by at most one unit |
| Shares.JoinMinted | exchange/lib.rs:168 | shares minted on a join: floor(v S / D) |
| Shares.ExitShare | exchange/lib.rs:235-236 | payout of a burn: floor(amount R / S), at most R when amount <= S |
| Shares.JoinKeepsShareValue | exchange/lib.rs:163-176 | a join lowers neither the native nor the token value of one share |
| Shares.ExitKeepsShareValue | exchange/lib.rs:233-243 | a burn does not lower the value of a remaining share |
| Shares.ExitAll | exchange/lib.rs:235-236 | burning the whole supply pays out the whole reserve |
| Liquidity.Join | exchange/lib.rs:158-214 | InvalidArgument unless deadline >= now, max_tokens > 0 and value > 0. An empty supply mints the full native balance and pulls exactly max_tokens. A live pool succeeds iff min_liquidity > 0, the reserve is non-empty, the slippage bounds hold and the pull succeeds; it then mints exactly floor(v S / D) shares and pulls exactly floor(v T / D) + 1 tokens. Deposit <= max_tokens. Share value is kept |
| Liquidity.Exit | exchange/lib.rs:227-246 | succeeds iff every argument check passes, the supply is positive, both payouts strictly exceed their minimums, and the caller has an LP entry of at least `amount`. The payouts are exactly floor(amount D / S) native and floor(amount T / S) tokens, at most the reserves. Share value is kept |
| Liquidity.ExitWithinReserves | exchange/lib.rs:238-246 | while the balances sum to the supply, a successful exit burns no more than the supply and pays out no more than each reserve |
| Swaps.SellDot | exchange/lib.rs:278-291 | exact native input succeeds iff arguments are valid, reserves are positive and the input price >= min_tokens. The result is the input price, below the token reserve, and the raw product does not shrink |
| Swaps.BuyTokens | exchange/lib.rs:324-340 | exact token output succeeds iff arguments are valid, reserves are positive, out < token reserve and the output price <= the value sent (otherwise Overpriced). The result is the output price and the raw product strictly grows |
| Swaps.SellTokens | exchange/lib.rs:373-390 | exact token input succeeds iff the input price is strictly above min_dot and the buyer can pay. The result is below the native reserve and the raw product does not shrink |
| Swaps.BuyDot | exchange/lib.rs:417-434 | exact native output succeeds iff the output price <= max_tokens and the buyer can pay. The raw product strictly grows |
| Swaps.SellTokensToPeer | exchange/lib.rs:467-493 | this exchange's leg of token_to_token_input: the native moved is the input price, >= min_dot_bought and below the reserve. The peer's failure aborts everything. The result is the peer's answer |
| Swaps.BuyThroughPeer | exchange/lib.rs:534-568 | this exchange's leg of token_to_token_output: rejects a self or default peer. It sells the output price of the peer's quote, within both maxima, and the raw product strictly grows |
| Swaps.SellMoreMovesMore | exchange/lib.rs:467-476 | selling more tokens here never sends less native to the peer |
| Exchange.Exchange.constructor | exchange/lib.rs:120-141 | the deployer holds every LP share, equal to the endowment; the token pull happens only when the amount is positive and the deployer can pay, and a failed pull does not stop deployment |
| Exchange.Exchange.AddLiquidity | exchange/lib.rs:158-214 | the result is `Join`'s minted shares. On success the supply and the caller's shares rise by it, the native balance rises by the value sent, and exactly `Join`'s deposit moves from caller to exchange. On error nothing changes. Sum of LP balances = supply is kept |
| Exchange.Exchange.RemoveLiquidity | exchange/lib.rs:227-261 | the result is `Exit`'s payouts. The caller's shares and the supply drop by exactly `amount`. The native payout is logged to the caller, and the token payout moves from the exchange to the caller. On error nothing changes |
| Exchange.Exchange.DotToTokenInputPrice | exchange/lib.rs:702-707 | InvalidArgument for 0; otherwise the largest token output that keeps the fee-adjusted product at the current reserves |
| Exchange.Exchange.DotToTokenOutputPrice | exchange/lib.rs:717-722 | InvalidArgument for 0; otherwise the least native input that grows the fee-adjusted product |
| Exchange.Exchange.TokenToDotInputPrice | exchange/lib.rs:732-737 | as DotToTokenInputPrice in the other direction |
| Exchange.Exchange.TokenToDotOutputPrice | exchange/lib.rs:747-753 | as DotToTokenOutputPrice in the other direction |
| Exchange.Exchange.DotToTokenInput | exchange/lib.rs:278-291 | the result is `SellDot` on the reserves before the call and equals the quote made just before. The native balance rises by the input and the tokens go to the recipient. The reserves' product does not shrink. Errors change nothing |
| Exchange.Exchange.DotToTokenSwapInput | exchange/lib.rs:302-306 | DotToTokenInput with the sent value, paying the caller |
| Exchange.Exchange.DotToTokenTransferInput | exchange/lib.rs:318-322 | InvalidRecipient for the exchange itself or the default account; otherwise DotToTokenInput to the recipient |
| Exchange.Exchange.DotToTokenOutput | exchange/lib.rs:324-340 | the result is `BuyTokens` and equals the quote. The exchange keeps exactly the cost and logs a refund of max_dot - cost to the buyer when it is positive. Exactly tokens_bought go to the recipient. The product strictly grows |
| Exchange.Exchange.DotToTokenSwapOutput | exchange/lib.rs:351-355 | DotToTokenOutput delivering to and refunding the caller |
| Exchange.Exchange.DotToTokenTransferOutput | exchange/lib.rs:367-371 | InvalidRecipient for self or the default account; otherwise DotToTokenOutput to the recipient with the refund to the caller |
| Exchange.Exchange.TokenToDotInput | exchange/lib.rs:373-390 | the result is `SellTokens` and equals the quote. Exactly tokens_sold move from the buyer. The native amount is paid to the recipient. The product does not shrink |
| Exchange.Exchange.TokenToDotSwapInput | exchange/lib.rs:398-401 | TokenToDotInput paying the caller |
| Exchange.Exchange.TokenToDotTransferInput | exchange/lib.rs:412-415 | InvalidRecipient only for the exchange itself (the default account is accepted); otherwise TokenToDotInput |
| Exchange.Exchange.TokenToDotOutput | exchange/lib.rs:417-434 | the result is `BuyDot` and equals the quote. Exactly dot_bought is paid to the recipient and the tokens sold move from the buyer. The product strictly grows |
| Exchange.Exchange.TokenToDotSwapOutput | exchange/lib.rs:445-448 | TokenToDotOutput paying the caller |
| Exchange.Exchange.TokenToDotTransferOutput | exchange/lib.rs:461-465 | InvalidRecipient for self or the default account; otherwise TokenToDotOutput |
| Exchange.Exchange.TokenToTokenInput | exchange/lib.rs:467-493 | the local leg decided by `SellTokensToPeer`: tokens pulled from the buyer, native paid to the peer exchange, the peer's answer returned; errors change nothing |
| Exchange.Exchange.TokenToTokenOutput | exchange/lib.rs:534-568 | the local leg decided by `BuyThroughPeer`: the tokens sold pulled from the buyer, the peer's quote paid to it; errors change nothing |
| Exchange.Exchange.BalanceOf | exchange/lib.rs:767-769 | LP shares held, 0 for an absent account |
| Exchange.Exchange.Allowance | exchange/lib.rs:815 | the (owner, spender) LP allowance, 0 when absent |
| Exchange.Exchange.TransferFromTo | exchange/lib.rs:771-791 | true iff `from` holds at least `value`; on true the shares become `Move(...)`, on false nothing changes; the LP sum invariant is kept |
| Exchange.Exchange.Transfer | exchange/lib.rs:800-803 | TransferFromTo out of the caller |
| Exchange.Exchange.TransferFrom | exchange/lib.rs:813-822 | true iff both the allowance and the balance cover `value`. The allowance drops by `value` whenever it covers it, even when the move is then refused. Balances move only on true |
| Exchange.Exchange.Approve | exchange/lib.rs:830-839 | overwrites the (caller, spender) LP allowance and returns true |
| Exchange.LiquidityLedgerScenario | exchange/lib.rs:940-968 | the LP ledger tests (a transfer of 200 and a self-approved transfer_from of 200 succeed), plus one case beyond them: a transfer_from refused for lack of balance still spends its allowance (500 of 1000 left) |
| Factory.Factory.constructor | factory/lib.rs:38-47 | no template, count 0, empty maps, registry invariant holds |
| Factory.Factory.InitializeFactory | factory/lib.rs:61-66 | succeeds iff no template is set yet and the argument is not the default hash (AlreadyInitialized / InvalidArgument otherwise); only then is the template set |
| Factory.Factory.CreateExchange | factory/lib.rs:77-105 | succeeds iff the token is not default, the template is set, the token has no exchange yet and value != 0, with the errors in that order. On success both maps get the pair, the count rises by 1 and the new id names the token. It keeps the maps mutually inverse and the ids exactly 1..count, each naming a distinct token. Failures change nothing |
| Factory.Factory.GetExchange | factory/lib.rs:113-115 | NotFound for an unregistered token, otherwise its exchange |
| Factory.Factory.GetToken | factory/lib.rs:123-125 | NotFound for an unregistered exchange, otherwise its token |
| Factory.Factory.GetTokenWithId | factory/lib.rs:133-135 | NotFound for an unused id, otherwise the token created under it |
| Factory.Factory.LookupRoundTrip | factory/lib.rs:92-94 | token → exchange → token and exchange → token → exchange both return where they started |
| Factory.Factory.IdsCoverCount | factory/lib.rs:96-99 | an id resolves iff 1 <= id <= token_count, and the token it names has an exchange |
| Factory.RegistryScenario | factory/lib.rs:61-105 | a second initialisation fails, a second exchange for the same token fails, and all three lookups answer for the first |

## Left out

- Events are not modelled, nor the test helpers that hash event topics. They carry no state the contracts read back.
- The metadata fields `name`, `symbol`, `decimals` and `gas_limit` are not modelled. No computation reads them.
- Cross-contract plumbing (selectors, `build_call`, gas) is not modelled. Calls into the token ledger become method calls on the composed `Erc20` object. A token pull that fails aborts the message with `TransferFailed`. Token pushes are proved to succeed.
- u128 overflow: all amounts are unbounded naturals. A product that would overflow u128 and abort on chain succeeds in the model.
- Native transfers always succeed in the model and are logged in `payouts`. The chain's existential-deposit rule and any other reason `env().transfer` can fail are not modelled.
- The multi-hop wrappers `token_to_token_swap_input`, `token_to_token_transfer_input`, `token_to_token_swap_output` and `token_to_token_transfer_output` are not modelled. They resolve the peer exchange through the factory (`exchange_from_factory`), a foreign call.
- The multi-hop wrappers `token_to_exchange_swap_input`, `token_to_exchange_transfer_input`, `token_to_exchange_swap_output` and `token_to_exchange_transfer_output` are also not modelled. They only forward to the modelled local legs `TokenToTokenInput` and `TokenToTokenOutput`. Their `recipient` matters only inside the peer call.
- The peer exchange in a multi-hop trade is not modelled. Its answers are parameters (`peer`, `peerQuote`, `peerSwap`), so the model does not prove that the peer's quote and swap agree.
- Exchange.Exchange.TokenToTokenInput: a call into the exchange itself is treated as a failure, since a contract is not re-entered. The source has no explicit check for this case.
- Exchange.Exchange.TokenToTokenOutput: like `token_to_token_output`, it checks no deadline or zero amount locally. Those checks are the peer's.
- Caller identity: messages require `caller != account`. An exchange never calls its own messages.
- Exchange.Exchange.AddLiquidity: `Join` decides up front whether the token pull will succeed, so the LP writes are made only on a call that commits. In the source the writes come first and a failed pull aborts the call, which undoes them; the outcomes are the same.
- Exchange.Exchange.constructor: it takes the deployer and the endowment as arguments, where the source reads `env().balance()`. The `default` constructor, which deploys with default accounts, is not modelled separately.
- Contract instantiation in `create_exchange` is not modelled. The new exchange's account is a parameter that is not yet registered. A failed instantiation is not modelled.
- `total_supply` (exchange/lib.rs:757), `get_address`, `token_balance` and erc20's `balance` are plain getters or environment reads. `TokenReserve` stands for `token_balance`.
