/** What the NEAR host supplies to a call and what a call asks the host to do.
    The contract reads these through `env::*`; here they are plain values. */
module Host {
  import opened Primitives

  /** The host's view at the moment of a call: `env::block_height()`,
      `env::block_timestamp()`, `env::random_seed()`, `env::predecessor_account_id()`
      and `env::attached_deposit()`. */
  datatype Env = Env(
    blockHeight: U64,
    blockTimestamp: U64,
    randomSeed: seq<U8>,
    predecessor: AccountId,
    attachedDeposit: U128)

  /** A `Promise::new(receiver).transfer(amount)` issued by a call. */
  datatype Transfer = Transfer(receiver: AccountId, amount: U128)
}
