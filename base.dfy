/** Shared vocabulary of the three contracts: chain types and the failure-aware
    result types that stand for an aborted call. */
module Base {

  /** An account on the chain. Account 0 plays the role of `AccountId::default()`. */
  type AccountId = nat
  const DefaultAccount: AccountId := 0

  /** A code hash. Hash 0 plays the role of `Hash::default()`. */
  type Hash = nat
  const DefaultHash: Hash := 0

  /** Block timestamps and deadlines. */
  type Timestamp = nat

  /** Why a call aborts. Each one names an `assert!`, an `unwrap`, an
      `expect`, an arithmetic underflow or a division by zero of the contract. */
  datatype Error =
    | InvalidArgument      // an assert! on the arguments: deadline passed, zero amount or value, default id or hash
    | InvalidReserve       // a pricing formula was given an empty reserve
    | DepletedReserve      // output_price asked for the whole reserve or more (underflow / zero divisor)
    | EmptyReserve         // add_liquidity divides by an empty native reserve
    | SlippageExceeded     // a caller-supplied minimum or maximum is not met
    | Overpriced           // the exact-output cost exceeds the native value sent (underflow)
    | InvalidRecipient     // the recipient is the exchange itself or the default account
    | EmptySupply          // remove_liquidity on a pool that has no LP shares
    | NoLiquidity          // the caller has no LP entry (unwrap on a missing key)
    | InsufficientLiquidity
    | InvalidExchange      // a peer exchange is this exchange or the default account
    | TransferFailed       // a token pull or a peer exchange call failed
    | AlreadyInitialized   // the factory's template is already set
    | Uninitialized        // the factory's template is not set yet
    | ExchangeExists       // the token already has an exchange
    | NotFound             // a registry lookup found no entry (unwrap on a missing key)

  /** Result of a call that either returns a value or aborts. */
  datatype Result<+T, +E> = Ok(value: T) | Err(error: E)

  /** Result of a call that returns nothing or aborts. */
  datatype Outcome<+E> = Pass | Fail(error: E)
}
