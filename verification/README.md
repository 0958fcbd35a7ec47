# simple-bet: a verified model of the betting contract

This project models the NEAR contract `simple-bet` in Dafny. The contract holds a
pool of funds. A caller bets an attached deposit. The stake is capped at a
configurable fraction of the pool (`max_bet_ratio`). The bet is resolved with one
byte of per-block entropy against a winning probability in 256ths
(`winning_proba`). A win pays twice the stake. A loss puts twice the stake into the
pool. The last 32 resolved bets are kept in a log. A migration turns the first
stored layout into the current one.

Layout:

- `primitives.dfy` (`Primitives`): the `u8`, `u64` and `u128` widths as newtypes.
  Every `+`, `-` and `*` on a `U128` must be proved to stay in range.
- `host.dfy` (`Host`): `Env` holds what the host supplies to a call (block height,
  timestamp, random seed, caller, attached deposit). `Transfer` is a transfer the
  call asks the host to make.
- `wrappers.dfy` (`Wrappers`): `Option` and `Result`. A panicking check becomes a
  `Failure` that carries the panic message.
- `types.dfy` (`Types`): `Fraction`, `Fraction::mul`, `BetResult` and `Event::new`.
- `simple_bet.dfy` (`SimpleBet`): the `Contract` class with one field per stored
  field. `top_up`, `bet`, `do_bet` and the two setters are methods that update the
  fields in place. `init` is a static method that returns the new contract or the
  panic message. The pure pieces of these operations are functions with lemmas
  about them:
  - the validation checks;
  - the capped stake;
  - the win decision;
  - the bounded log.
- `migrate.dfy` (`Migrate`): the legacy layout `Contract0` and `migrate_state`.

The two phases of a bet are two calls. `Bet` returns the scheduled resolve call
(`ScheduledBet`: stake and bettor), and the caller passes it on to `DoBet`.
`BetAndResolve` runs both phases in sequence and states their combined effect on
the pool.

Two consequences of the code are worth stating:

- The win test compares the byte with `winning_proba.num as u8`
  (contract/src/lib.rs:130), which is `num mod 256`. So the accepted probability
  256/256 never wins (`FullProbabilityNeverWins`).
- `Fraction::mul` forms `num * x` in `u128` (contract/src/types.rs:14). The model
  requires the product to fit in `u128`.

## Model

| member | source | states |
|---|---|---|
| Types.Mul | contract/src/types.rs:13-15 | the result is `num * x / den` rounded down: `r * den <= num * x < (r + 1) * den`, given a non-zero denominator and a `u128` product |
| Types.MulAtMost | contract/src/types.rs:14 | with `0 < num <= den`, the product never exceeds the balance |
| Types.MulMonotone | contract/src/types.rs:14 | `mul` is monotone in the balance, and a smaller balance keeps the product in range |
| Types.MulZero | contract/src/types.rs:14 | `mul(0) == 0` |
| Types.MulWhole | contract/src/types.rs:14 | `num == den` gives `mul(x) == x` |
| Types.NewEvent | contract/src/types.rs:34-42 | the event keeps the bettor, result and stake as given, and takes its timestamp and block height from the host |
| SimpleBet.CheckMaxBetRatio | contract/src/lib.rs:69-72 | a ratio passes iff `0 < num <= den`, which implies `den > 0`; otherwise the call fails with the range message |
| SimpleBet.CheckWinningProba | contract/src/lib.rs:79-84 | a probability passes iff `0 < num <= den` and `den == 256`. A probability outside the range fails with the range message, whatever its denominator. One inside the range fails only on its denominator, with the denominator message |
| SimpleBet.CheckInit | contract/src/lib.rs:29-39 | `init` passes iff both fractions are valid; a bad ratio fails first with the ratio's message |
| SimpleBet.Stake | contract/src/lib.rs:96-98 | the accepted stake is at most the deposit and at most `max_bet_ratio.mul(pool)`, equals one of them, and never exceeds the pool for a valid ratio |
| SimpleBet.NothingToStake | contract/src/lib.rs:96-105 | an empty pool or an empty deposit gives a zero stake, so the whole deposit is refunded |
| SimpleBet.BetOutcome | contract/src/lib.rs:130-136 | a bet wins iff the byte is below `num mod 256` (the `as u8` truncation) |
| SimpleBet.WinsBelowCount | contract/src/lib.rs:130 | among the bytes `0 .. k-1`, exactly `min(k, num mod 256)` win |
| SimpleBet.WinningBytesCount | contract/src/lib.rs:130 | exactly `num mod 256` of the 256 byte values win, so the win probability is `num/256` for `num < 256` |
| SimpleBet.FullProbabilityNeverWins | contract/src/lib.rs:130 | for the accepted probability 256/256, every byte loses |
| SimpleBet.Recorded | contract/src/lib.rs:141-144 | the new event is last; the length grows by one up to 32 and then stays; the log is the matching suffix of the old log plus the event |
| SimpleBet.RecordedIsNewest | contract/src/lib.rs:141-144 | recording on a log of at most 32 entries keeps exactly the newest 32 of the old log plus the event |
| SimpleBet.NewestOfNewest | contract/src/lib.rs:141-144 | trimming to the newest 32 before appending more gives the same result as trimming only at the end |
| SimpleBet.RecordedAllKeepsNewest | contract/src/lib.rs:141-144 | after any sequence of recorded events, the log holds exactly the newest 32 (or all, if fewer), in chronological order |
| SimpleBet.ThirtyThreeBets | contract/src/lib.rs:11-11 | after 33 resolved bets on an empty log, the first is gone and the other 32 remain in order |
| SimpleBet.Contract.Build | contract/src/lib.rs:41-48 | the struct literal: every field takes the given value |
| SimpleBet.Contract.Init | contract/src/lib.rs:26-49 | fails with the first failing check's message; otherwise gives a fresh valid contract with an empty pool, the given fractions, the current block height and seed, and an empty log |
| SimpleBet.Contract.Pool | contract/src/lib.rs:51-53 | returns the pool |
| SimpleBet.Contract.MaxBetRatio | contract/src/lib.rs:55-57 | returns the ratio, which is always in (0, 1] |
| SimpleBet.Contract.WinningProba | contract/src/lib.rs:59-61 | returns the probability, which is always in (0, 1] with denominator 256 |
| SimpleBet.Contract.Events | contract/src/lib.rs:63-65 | returns the log, which never holds more than 32 events |
| SimpleBet.Contract.SetMaxBetRatio | contract/src/lib.rs:67-75 | replaces only the ratio, and only if it passes the check; a rejected ratio leaves the whole state unchanged; the contract stays valid |
| SimpleBet.Contract.SetWinningProba | contract/src/lib.rs:77-87 | replaces only the probability, and only if it passes both checks; a rejected one leaves the whole state unchanged; the contract stays valid |
| SimpleBet.Contract.TopUp | contract/src/lib.rs:89-92 | the pool grows by exactly the attached deposit; nothing else changes |
| SimpleBet.Contract.Bet | contract/src/lib.rs:94-117 | stake plus refund equals the deposit. A zero stake refunds the whole deposit, leaves the pool alone and schedules nothing. Otherwise the pool drops by exactly the stake, a transfer is made only for a positive refund, and the resolve phase is scheduled with the stake for the caller. Nothing else changes |
| SimpleBet.Contract.DoBet | contract/src/lib.rs:119-150 | the entropy is replaced iff the block height moved, and `last_block` becomes the current height. With no byte: the stake is refunded and the pool and log are unchanged. Otherwise exactly the last byte is removed. A win pays `2 × stake` and leaves the pool alone; a loss adds `2 × stake` to the pool. The event goes to the log as `Recorded` says, and the contract stays valid |
| SimpleBet.Contract.BetAndResolve | contract/src/lib.rs:95-150 | across both phases: a zero stake leaves the pool alone; a bet without entropy, or a win, leaves the pool down by the stake; a loss leaves it up by the stake |
| SimpleBet.SandboxBet | contract/src/lib.rs:161-211 | the sandbox test's setup. The pool is 1 NEAR after the top-up, which is what the test asserts (lib.rs:196-200). The model adds the outcome of the 2 NEAR bet, which the test does not check: a 0.1 NEAR stake, a 1.9 NEAR refund and 0.9 NEAR left in the pool |
| SimpleBet.SandboxScenario | contract/src/lib.rs:161-211 | the sandbox test's setup, continued with a resolve on a chosen losing byte 200, which the test does not have. The pool ends at 1.1 NEAR, nothing is paid out, and the log holds one Lose event for the 0.1 NEAR stake |
| Migrate.ToFraction | contract/src/migrate.rs:12-19 | the conversion copies the numerator and denominator unchanged |
| Migrate.CheckMigration | contract/src/migrate.rs:35-37 | migration passes iff a legacy state exists and its fractions pass `init`'s checks; missing state fails with "No state to migrate from" |
| Migrate.MigrateState | contract/src/migrate.rs:31-40 | fails exactly as `CheckMigration` says. Otherwise it gives a fresh valid contract with the legacy pool and fractions, the host's current block height and seed, and an empty log |
| Migrate.SandboxMigration | contract/src/migrate.rs:53-101 | the migration test: a legacy state with 1 NEAR migrates with its pool kept, which is what the test asserts (migrate.rs:97-98). The model adds that the 10/100 ratio is kept and the log is empty |

## Left out

- Types.Mul: requires a non-zero denominator, because Rust always panics on division by zero. It also requires the `u128` product `num * x` to fit. Whether that overflow traps or wraps depends on a build profile outside this model.
- SimpleBet.Contract.TopUp: requires that the pool plus the deposit fits in `u128`. The overflow case of `+=` is not modelled.
- SimpleBet.Contract.Bet: requires that `max_bet_ratio.num * pool` fits in `u128`. This is the same `mul` overflow as above.
- SimpleBet.Contract.DoBet: when a byte is drawn, requires `2 * bet` to fit in `u128`, and on a loss also `pool + 2 * bet`. These are exactly the sums the source computes on those paths. The overflow case itself is not modelled.
- SimpleBet.Contract.BetAndResolve: requires the same path-dependent no-overflow bounds as `Bet` and `DoBet`, stated on the state before the bet with the accepted stake in place of `bet`.
- The `#[private]` restriction on `init`, the setters, `do_bet` and `migrate_state` is a host check on the caller. It is not modelled, so any caller may invoke these members.
- Event emission (`Event::emit`, the NEP-297 JSON envelope) and every `env::log_str` are output formatting and logging. They are not modelled.
- The host's scheduling of `do_bet` is not modelled: its gas and the guarantee that it runs. The scheduled call is returned as a value, and other calls may run before it.
- Executing transfers is not modelled. They are returned as a sequence of `(receiver, amount)`.
- The Borsh layout and `env::state_read` are not modelled. The legacy state reaches `MigrateState` as an `Option`, so the model says nothing about migrating state that is already in the current layout.
- The host's random seed is always 32 bytes long. The model accepts a seed of any length.
- contract/src/test_utils.rs is a build and reporting helper for the tests. It is not part of this model.
