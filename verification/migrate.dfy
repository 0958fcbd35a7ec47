/** Migration from the first stored layout (bare `u128` numbers, no event log)
    to the current `Contract`. */
module Migrate {
  import opened Wrappers
  import opened Primitives
  import opened Host
  import opened Types
  import opened SimpleBet

  const NO_STATE: string := "No state to migrate from"

  /** The legacy fraction, with bare `u128` parts. */
  datatype Fraction0 = Fraction0(num: U128, den: U128)

  /** `From<Fraction0> for Fraction`: the same numerator and denominator. */
  function ToFraction(f: Fraction0): (r: Fraction)
    ensures r.num == f.num && r.den == f.den
  {
    Fraction(f.num, f.den)
  }

  /** The legacy contract state. */
  datatype Contract0 = Contract0(
    pool: U128,
    maxBetRatio: Fraction0,
    winningProba: Fraction0,
    lastBlock: U64,
    seed: seq<U8>)

  /** Whether migrating `stored` succeeds, and the panic message if not: there
      must be a stored legacy state, and its fractions must pass `init`'s checks. */
  function CheckMigration(stored: Option<Contract0>): (r: Validation)
    ensures r.Accepted? <==>
      stored.Some? &&
      0 < stored.value.maxBetRatio.num <= stored.value.maxBetRatio.den &&
      0 < stored.value.winningProba.num <= stored.value.winningProba.den &&
      stored.value.winningProba.den == 256
    ensures stored.None? ==> r == Rejected(NO_STATE)
    ensures stored.Some? && !(0 < stored.value.maxBetRatio.num <= stored.value.maxBetRatio.den) ==>
      r == Rejected(MAX_BET_RATIO_RANGE)
  {
    if stored.None? then Rejected(NO_STATE)
    else CheckInit(ToFraction(stored.value.maxBetRatio), ToFraction(stored.value.winningProba))
  }

  /** `migrate_state`: reads the legacy state (`None` when there is none), runs
      `init` on its fractions and carries the pool over. The entropy and the block
      height come from the host at migration time; the log starts empty. */
  method MigrateState(stored: Option<Contract0>, env: Env) returns (r: Result<Contract, string>)
    ensures CheckMigration(stored).Rejected? ==> r == Failure(CheckMigration(stored).reason)
    ensures CheckMigration(stored).Accepted? ==>
      r.Success? && fresh(r.value) && r.value.Valid() &&
      r.value.pool == stored.value.pool &&
      r.value.maxBetRatio == ToFraction(stored.value.maxBetRatio) &&
      r.value.winningProba == ToFraction(stored.value.winningProba) &&
      r.value.lastBlock == env.blockHeight && r.value.seed == env.randomSeed &&
      r.value.lastEvents == []
  {
    if stored.None? {
      return Failure(NO_STATE);
    }
    var state := stored.value;
    r := Contract.Init(ToFraction(state.maxBetRatio), ToFraction(state.winningProba), env);
    if r.Success? {
      var newState := r.value;
      newState.pool := state.pool;
    }
  }

  /** The migration scenario of the contract's own test: a legacy state with a
      10/100 ratio, a 128/256 probability and 1 NEAR in the pool migrates to a
      current state with the same pool, the same fractions and an empty log. */
  method SandboxMigration() returns (pool: U128, maxBetRatio: Fraction, events: seq<Event>)
    ensures pool == NEAR
    ensures maxBetRatio == Fraction(10, 100)
    ensures events == []
  {
    var legacy := Contract0(NEAR, Fraction0(10, 100), Fraction0(128, 256), 5, [1, 2, 3]);
    var r := MigrateState(Some(legacy), Env(9, 0, [4, 5], "simple-bet", 0));
    var c := r.value;
    pool := c.Pool();
    maxBetRatio := c.MaxBetRatio();
    events := c.Events();
  }
}
