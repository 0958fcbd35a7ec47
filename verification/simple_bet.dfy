/** The betting contract: a pool of funds, a cap on each bet as a fraction of the
    pool, a win probability in 256ths, per-block entropy consumed one byte per
    resolved bet, and a log of the most recent resolved bets.

    A bet runs in two calls: `Bet` (the accept phase) debits the pool and hands
    back the stake to be resolved; the host then runs `DoBet` (the resolve phase)
    with that stake. Transfers the host is asked to make are returned as values. */
module SimpleBet {
  import opened Wrappers
  import opened Primitives
  import opened Host
  import opened Types

  /** How many resolved bets the log keeps. */
  const KEEP_EVENTS: nat := 32

  const MAX_BET_RATIO_RANGE: string := "Max bet ratio must be in the range (0, 1]"
  const WINNING_PROBA_RANGE: string := "Winning probability must be in the range (0, 1]"
  const DENOMINATOR_256: string := "Denominator must be 256"

  /** The outcome of a `require!` check: passed, or the panic message. */
  datatype Validation = Accepted | Rejected(reason: string)

  /** A maximum bet ratio the contract accepts: in (0, 1]. */
  predicate ValidMaxBetRatio(f: Fraction) {
    0 < f.num <= f.den
  }

  /** A winning probability the contract accepts: in (0, 1] and in 256ths. */
  predicate ValidWinningProba(f: Fraction) {
    0 < f.num <= f.den && f.den == 256
  }

  /** The check `init` and `set_max_bet_ratio` apply to a maximum bet ratio. */
  function CheckMaxBetRatio(f: Fraction): (r: Validation)
    ensures r.Accepted? <==> 0 < f.num <= f.den
    ensures r.Accepted? ==> f.den > 0
    ensures r.Rejected? ==> r.reason == MAX_BET_RATIO_RANGE
  {
    if 0 < f.num && f.num <= f.den then Accepted else Rejected(MAX_BET_RATIO_RANGE)
  }

  /** The two checks `init` and `set_winning_proba` apply, in order, to a winning
      probability: the range first, then the denominator. */
  function CheckWinningProba(f: Fraction): (r: Validation)
    ensures r.Accepted? <==> 0 < f.num <= f.den && f.den == 256
    ensures !(0 < f.num <= f.den) ==> r == Rejected(WINNING_PROBA_RANGE)
    ensures r.Rejected? && 0 < f.num <= f.den ==> r.reason == DENOMINATOR_256
  {
    if !(0 < f.num && f.num <= f.den) then Rejected(WINNING_PROBA_RANGE)
    else if f.den != 256 then Rejected(DENOMINATOR_256)
    else Accepted
  }

  /** The three checks of `init`, in order: the ratio is checked before the
      probability, so a call with both wrong fails with the ratio's message. */
  function CheckInit(maxBetRatio: Fraction, winningProba: Fraction): (r: Validation)
    ensures r.Accepted? <==> ValidMaxBetRatio(maxBetRatio) && ValidWinningProba(winningProba)
    ensures !ValidMaxBetRatio(maxBetRatio) ==> r == Rejected(MAX_BET_RATIO_RANGE)
    ensures ValidMaxBetRatio(maxBetRatio) ==> r == CheckWinningProba(winningProba)
  {
    var ratio := CheckMaxBetRatio(maxBetRatio);
    if ratio.Rejected? then ratio else CheckWinningProba(winningProba)
  }

  /** The stake `bet` accepts: the deposit, cut down to `max_bet_ratio.mul(pool)`.
      With a valid ratio it never exceeds the pool, so the debit cannot underflow. */
  function Stake(pool: U128, maxBetRatio: Fraction, deposit: U128): (accepted: U128)
    requires maxBetRatio.den > 0
    requires maxBetRatio.num as int * pool as int < TWO_TO_128
    ensures accepted <= deposit && accepted <= Mul(maxBetRatio, pool)
    ensures accepted == deposit || accepted == Mul(maxBetRatio, pool)
    ensures ValidMaxBetRatio(maxBetRatio) ==> accepted <= pool
  {
    var maxBet := Mul(maxBetRatio, pool);
    assert ValidMaxBetRatio(maxBetRatio) ==> maxBet <= pool by {
      if ValidMaxBetRatio(maxBetRatio) {
        MulAtMost(maxBetRatio, pool);
      }
    }
    if deposit <= maxBet then deposit else maxBet
  }

  /** An empty pool or an empty deposit always gives a zero stake, so the whole
      deposit goes back and nothing is resolved. */
  lemma NothingToStake(pool: U128, maxBetRatio: Fraction, deposit: U128)
    requires ValidMaxBetRatio(maxBetRatio)
    requires maxBetRatio.num as int * pool as int < TWO_TO_128
    requires pool == 0 || deposit == 0
    ensures Stake(pool, maxBetRatio, deposit) == 0
  {
    if pool == 0 {
      MulZero(maxBetRatio);
    }
  }

  /** The outcome of a bet decided by the entropy byte `b`: the comparison is
      against the numerator truncated to a byte (`as u8`), that is `num mod 256`. */
  function BetOutcome(b: U8, winningProba: Fraction): (r: BetResult)
    ensures r == Win <==> b as int < winningProba.num as int % 256
  {
    if b < (winningProba.num as int % 256) as U8 then Win else Lose
  }

  /** How many of the byte values `0 .. k-1` make a bet win. */
  function WinsBelow(winningProba: Fraction, k: nat): nat
    requires k <= 256
  {
    if k == 0 then 0
    else WinsBelow(winningProba, k - 1) + if BetOutcome((k - 1) as U8, winningProba) == Win then 1 else 0
  }

  lemma {:induction false} WinsBelowCount(winningProba: Fraction, k: nat)
    requires k <= 256
    ensures WinsBelow(winningProba, k) == Min(k, winningProba.num as int % 256)
  {
    if k > 0 {
      WinsBelowCount(winningProba, k - 1);
    }
  }

  /** Exactly `num mod 256` of the 256 byte values win: for `num < 256` the win
      probability is `num / 256`, as the configuration says. */
  lemma WinningBytesCount(winningProba: Fraction)
    ensures WinsBelow(winningProba, 256) == winningProba.num as int % 256
  {
    WinsBelowCount(winningProba, 256);
  }

  /** The byte truncation makes the largest accepted probability, `256/256`,
      lose on every byte. */
  lemma FullProbabilityNeverWins(winningProba: Fraction)
    requires ValidWinningProba(winningProba) && winningProba.num == 256
    ensures forall b: U8 :: BetOutcome(b, winningProba) == Lose
    ensures WinsBelow(winningProba, 256) == 0
  {
    WinningBytesCount(winningProba);
  }

  /** The log after recording `e`: appended at the end, and the oldest entry
      dropped once there are more than `KEEP_EVENTS`. */
  function Recorded(events: seq<Event>, e: Event): (r: seq<Event>)
    ensures |r| == if |events| < KEEP_EVENTS then |events| + 1 else |events|
    ensures r[|r| - 1] == e
    ensures r == (events + [e])[|events| + 1 - |r|..]
  {
    var pushed := events + [e];
    if |pushed| > KEEP_EVENTS then pushed[1..] else pushed
  }

  /** The log after recording `es` one after the other. */
  function RecordedAll(events: seq<Event>, es: seq<Event>): seq<Event>
    decreases |es|
  {
    if es == [] then events else RecordedAll(Recorded(events, es[0]), es[1..])
  }

  /** The newest `KEEP_EVENTS` entries of `s` (all of them if there are fewer),
      oldest first. */
  function Newest(s: seq<Event>): seq<Event>
  {
    s[|s| - Min(|s|, KEEP_EVENTS)..]
  }

  /** On a log within capacity, recording keeps the newest entries. */
  lemma RecordedIsNewest(events: seq<Event>, e: Event)
    requires |events| <= KEEP_EVENTS
    ensures Recorded(events, e) == Newest(events + [e])
  {
  }

  /** Keeping the newest entries before appending more changes nothing. */
  lemma NewestOfNewest(a: seq<Event>, b: seq<Event>)
    ensures Newest(Newest(a) + b) == Newest(a + b)
  {
    var d := |a| - Min(|a|, KEEP_EVENTS);
    assert Newest(a) + b == (a + b)[d..];
    var m := Min(|a + b|, KEEP_EVENTS);
    assert Min(|a + b| - d, KEEP_EVENTS) == m;
    SuffixOfSuffix(a + b, d, |a + b| - d - m);
  }

  /** A log within capacity holds, after any sequence of resolved bets, exactly the
      newest `KEEP_EVENTS` events (or all of them if fewer), oldest first. */
  lemma {:induction false} RecordedAllKeepsNewest(events: seq<Event>, es: seq<Event>)
    requires |events| <= KEEP_EVENTS
    decreases |es|
    ensures RecordedAll(events, es) == Newest(events + es)
  {
    if es != [] {
      var e, more := es[0], es[1..];
      var next := Recorded(events, e);
      calc {
        RecordedAll(events, es);
        RecordedAll(next, more);
        { RecordedAllKeepsNewest(next, more); }
        Newest(next + more);
        { RecordedIsNewest(events, e); }
        Newest(Newest(events + [e]) + more);
        { NewestOfNewest(events + [e], more); }
        Newest(events + [e] + more);
        { assert events + [e] + more == events + es; }
        Newest(events + es);
      }
    }
  }

  /** A suffix of a suffix is a suffix of the whole. */
  lemma SuffixOfSuffix<T>(s: seq<T>, d: nat, k: nat)
    requires d <= |s| && k <= |s| - d
    ensures s[d..][k..] == s[d + k..]
  {
  }

  function Min(a: int, b: int): int {
    if a <= b then a else b
  }

  /** After 33 resolved bets on an empty log the first is gone and the other 32
      are kept in order. */
  lemma ThirtyThreeBets(es: seq<Event>)
    requires |es| == KEEP_EVENTS + 1
    ensures RecordedAll([], es) == es[1..]
  {
    RecordedAllKeepsNewest([], es);
    assert [] + es == es;
  }

  /** The resolve phase the accept phase schedules: `do_bet(current_bet, predecessor)`. */
  datatype ScheduledBet = ScheduledBet(bet: U128, bettor: AccountId)

  /** The contract's persistent state. */
  class Contract {
    var pool: U128
    var maxBetRatio: Fraction
    var winningProba: Fraction
    var lastBlock: U64
    var seed: seq<U8>
    var lastEvents: seq<Event>

    /** What `init`, the setters and migration establish and every call keeps. */
    ghost predicate Valid()
      reads this
    {
      ValidMaxBetRatio(maxBetRatio) && ValidWinningProba(winningProba) &&
      |lastEvents| <= KEEP_EVENTS
    }

    /** The struct literal `Self { .. }`. */
    constructor Build(pool: U128, maxBetRatio: Fraction, winningProba: Fraction,
                      lastBlock: U64, seed: seq<U8>, lastEvents: seq<Event>)
      ensures this.pool == pool && this.maxBetRatio == maxBetRatio
      ensures this.winningProba == winningProba && this.lastBlock == lastBlock
      ensures this.seed == seed && this.lastEvents == lastEvents
    {
      this.pool := pool;
      this.maxBetRatio := maxBetRatio;
      this.winningProba := winningProba;
      this.lastBlock := lastBlock;
      this.seed := seed;
      this.lastEvents := lastEvents;
    }

    /** `init`: validates both fractions and starts with an empty pool, an empty
        log and the current block's entropy. */
    static method Init(maxBetRatio: Fraction, winningProba: Fraction, env: Env)
      returns (r: Result<Contract, string>)
      ensures CheckInit(maxBetRatio, winningProba).Rejected? ==>
        r == Failure(CheckInit(maxBetRatio, winningProba).reason)
      ensures CheckInit(maxBetRatio, winningProba).Accepted? ==>
        r.Success? && fresh(r.value) && r.value.Valid() &&
        r.value.pool == 0 && r.value.maxBetRatio == maxBetRatio &&
        r.value.winningProba == winningProba && r.value.lastBlock == env.blockHeight &&
        r.value.seed == env.randomSeed && r.value.lastEvents == []
    {
      var check := CheckMaxBetRatio(maxBetRatio);
      if check.Rejected? {
        return Failure(check.reason);
      }
      check := CheckWinningProba(winningProba);
      if check.Rejected? {
        return Failure(check.reason);
      }
      var c := new Contract.Build(0, maxBetRatio, winningProba, env.blockHeight, env.randomSeed, []);
      r := Success(c);
    }

    /** `pool`. */
    function Pool(): (r: U128)
      reads this
      ensures r == pool
    {
      pool
    }

    /** `max_bet_ratio`: always a ratio in (0, 1]. */
    function MaxBetRatio(): (r: Fraction)
      reads this
      requires Valid()
      ensures 0 < r.num <= r.den && r == maxBetRatio
    {
      maxBetRatio
    }

    /** `winning_proba`: always in (0, 1] with denominator 256. */
    function WinningProba(): (r: Fraction)
      reads this
      requires Valid()
      ensures 0 < r.num <= r.den == 256 && r == winningProba
    {
      winningProba
    }

    /** `events`: the most recent resolved bets, oldest first, never more than
        `KEEP_EVENTS`. */
    function Events(): (r: seq<Event>)
      reads this
      requires Valid()
      ensures |r| <= KEEP_EVENTS && r == lastEvents
    {
      lastEvents
    }

    /** `set_max_bet_ratio`: replaces the ratio if it passes the check; a rejected
        ratio aborts the call and leaves everything as it was. */
    method SetMaxBetRatio(f: Fraction) returns (r: Validation)
      requires Valid()
      modifies this
      ensures Valid()
      ensures r == CheckMaxBetRatio(f)
      ensures maxBetRatio == if r.Accepted? then f else old(maxBetRatio)
      ensures pool == old(pool) && winningProba == old(winningProba)
      ensures lastBlock == old(lastBlock) && seed == old(seed) && lastEvents == old(lastEvents)
    {
      r := CheckMaxBetRatio(f);
      if r.Rejected? {
        return;
      }
      maxBetRatio := f;
    }

    /** `set_winning_proba`: replaces the probability if it passes both checks; a
        rejected probability aborts the call and leaves everything as it was. */
    method SetWinningProba(f: Fraction) returns (r: Validation)
      requires Valid()
      modifies this
      ensures Valid()
      ensures r == CheckWinningProba(f)
      ensures winningProba == if r.Accepted? then f else old(winningProba)
      ensures pool == old(pool) && maxBetRatio == old(maxBetRatio)
      ensures lastBlock == old(lastBlock) && seed == old(seed) && lastEvents == old(lastEvents)
    {
      r := CheckWinningProba(f);
      if r.Rejected? {
        return;
      }
      winningProba := f;
    }

    /** `top_up`: the attached deposit goes into the pool. */
    method TopUp(env: Env)
      requires pool as int + env.attachedDeposit as int < TWO_TO_128
      modifies this
      ensures pool as int == old(pool) as int + env.attachedDeposit as int
      ensures maxBetRatio == old(maxBetRatio) && winningProba == old(winningProba)
      ensures lastBlock == old(lastBlock) && seed == old(seed) && lastEvents == old(lastEvents)
    {
      pool := pool + env.attachedDeposit;
    }

    /** `bet`, the accept phase. The stake is the deposit capped at
        `max_bet_ratio.mul(pool)`, the rest is refunded. A zero stake refunds the
        whole deposit and schedules nothing; otherwise the pool is debited by the
        stake, a positive remainder is refunded, and the resolve phase is
        scheduled for the caller with that stake. */
    method Bet(env: Env) returns (transfers: seq<Transfer>, scheduled: Option<ScheduledBet>)
      requires Valid()
      requires maxBetRatio.num as int * pool as int < TWO_TO_128
      modifies this
      ensures Valid()
      ensures var accepted := Stake(old(pool), old(maxBetRatio), env.attachedDeposit);
        var refund := env.attachedDeposit - accepted;
        accepted as int + refund as int == env.attachedDeposit as int &&
        if accepted == 0 then
          pool == old(pool) && scheduled == None &&
          transfers == [Transfer(env.predecessor, env.attachedDeposit)]
        else
          pool as int == old(pool) as int - accepted as int &&
          scheduled == Some(ScheduledBet(accepted, env.predecessor)) &&
          transfers == if refund > 0 then [Transfer(env.predecessor, refund)] else []
      ensures maxBetRatio == old(maxBetRatio) && winningProba == old(winningProba)
      ensures lastBlock == old(lastBlock) && seed == old(seed) && lastEvents == old(lastEvents)
    {
      var deposit := env.attachedDeposit;
      var currentBet := Stake(pool, maxBetRatio, deposit);
      var refundBalance := deposit - currentBet;

      if currentBet == 0 {
        transfers := [Transfer(env.predecessor, refundBalance)];
        scheduled := None;
        return;
      }

      pool := pool - currentBet;

      transfers := [];
      if refundBalance > 0 {
        transfers := transfers + [Transfer(env.predecessor, refundBalance)];
      }

      scheduled := Some(ScheduledBet(currentBet, env.predecessor));
    }

    /** The entropy the resolve phase draws from: the host's fresh seed when the
        block height has moved since the last refresh, the cached bytes otherwise. */
    function Entropy(env: Env): seq<U8>
      reads this
    {
      if lastBlock != env.blockHeight then env.randomSeed else seed
    }

    /** `do_bet`, the resolve phase. It refreshes the entropy on a new block and
        takes the last byte. Without a byte the stake is refunded and nothing else
        happens. With one, a win pays the bettor twice the stake and a loss puts
        twice the stake into the pool; either way the event goes to the log. */
    method DoBet(bet: U128, bettor: AccountId, env: Env) returns (transfers: seq<Transfer>)
      requires Valid()
      requires var entropy := Entropy(env);
        entropy != [] ==>
          2 * bet as int < TWO_TO_128 &&
          (BetOutcome(entropy[|entropy| - 1], winningProba) == Lose ==>
             pool as int + 2 * bet as int < TWO_TO_128)
      modifies this
      ensures Valid()
      ensures lastBlock == env.blockHeight
      ensures maxBetRatio == old(maxBetRatio) && winningProba == old(winningProba)
      ensures var entropy := old(Entropy(env));
        if entropy == [] then
          seed == [] && pool == old(pool) && lastEvents == old(lastEvents) &&
          transfers == [Transfer(bettor, bet)]
        else
          var result := BetOutcome(entropy[|entropy| - 1], winningProba);
          seed == entropy[..|entropy| - 1] &&
          lastEvents == Recorded(old(lastEvents), NewEvent(bettor, result, bet, env)) &&
          if result == Win then
            pool == old(pool) && transfers == [Transfer(bettor, 2 * bet)]
          else
            pool as int == old(pool) as int + 2 * bet as int && transfers == []
    {
      if lastBlock != env.blockHeight {
        seed := env.randomSeed;
        lastBlock := env.blockHeight;
      }

      if |seed| > 0 {
        var b := seed[|seed| - 1];
        seed := seed[..|seed| - 1];
        var betResult;
        if b < (winningProba.num as int % 256) as U8 {
          transfers := [Transfer(bettor, 2 * bet)];
          betResult := Win;
        } else {
          pool := pool + 2 * bet;
          transfers := [];
          betResult := Lose;
        }

        var event := NewEvent(bettor, betResult, bet, env);

        lastEvents := lastEvents + [event];
        if |lastEvents| > KEEP_EVENTS {
          lastEvents := lastEvents[1..];
        }
      } else {
        transfers := [Transfer(bettor, bet)];
      }
    }

    /** One bet end to end: the accept phase, then, if it scheduled one, the
        resolve phase. Across both, a win leaves the pool down by the stake, a loss
        leaves it up by the stake, and a bet without entropy leaves it down by the
        stake, which is refunded. */
    method BetAndResolve(acceptEnv: Env, resolveEnv: Env) returns (transfers: seq<Transfer>)
      requires Valid()
      requires maxBetRatio.num as int * pool as int < TWO_TO_128
      requires var stake := Stake(pool, maxBetRatio, acceptEnv.attachedDeposit) as int;
        var entropy := Entropy(resolveEnv);
        entropy != [] ==>
          2 * stake < TWO_TO_128 &&
          (BetOutcome(entropy[|entropy| - 1], winningProba) == Lose ==>
             pool as int + stake < TWO_TO_128)
      modifies this
      ensures Valid()
      ensures var accepted := Stake(old(pool), old(maxBetRatio), acceptEnv.attachedDeposit) as int;
        var entropy := old(Entropy(resolveEnv));
        (accepted == 0 ==> pool == old(pool) && lastEvents == old(lastEvents)) &&
        (accepted > 0 && entropy == [] ==>
          pool as int == old(pool) as int - accepted && lastEvents == old(lastEvents)) &&
        (accepted > 0 && entropy != [] ==>
          pool as int == old(pool) as int +
            (if BetOutcome(entropy[|entropy| - 1], winningProba) == Win then -accepted else accepted))
    {
      var scheduled;
      transfers, scheduled := Bet(acceptEnv);
      if scheduled.Some? {
        var payouts := DoBet(scheduled.value.bet, scheduled.value.bettor, resolveEnv);
        transfers := transfers + payouts;
      }
    }
  }

  /** One NEAR in yoctoNEAR, the unit of balances. */
  const NEAR: U128 := 1_000_000_000_000_000_000_000_000

  /** The setup of the contract's sandbox test: a 10/100 ratio and a 128/256
      probability, a top-up of 1 NEAR, then a bet of 2 NEAR, of which 0.1 NEAR is
      accepted and 1.9 NEAR refunded. */
  method SandboxBet() returns (c: Contract, poolAfterTopUp: U128, refunds: seq<Transfer>,
                               scheduled: Option<ScheduledBet>)
    ensures fresh(c) && c.Valid()
    ensures poolAfterTopUp == NEAR
    ensures refunds == [Transfer("player", 19 * NEAR / 10)]
    ensures scheduled == Some(ScheduledBet(NEAR / 10, "player"))
    ensures c.pool == 9 * NEAR / 10 && c.lastEvents == [] && c.lastBlock == 1
    ensures c.maxBetRatio == Fraction(10, 100) && c.winningProba == Fraction(128, 256)
  {
    var r := Contract.Init(Fraction(10, 100), Fraction(128, 256), Env(1, 0, [7], "simple-bet", 0));
    c := r.value;
    c.TopUp(Env(2, 0, [], "owner", NEAR));
    poolAfterTopUp := c.Pool();
    assert Mul(c.maxBetRatio, c.pool) == NEAR / 10;
    refunds, scheduled := c.Bet(Env(3, 0, [], "player", 2 * NEAR));
  }

  /** The sandbox test's setup continued with a resolve on a later block whose
      entropy ends in the losing byte 200: the pool ends at 1.1 NEAR and the log
      holds one losing event for the 0.1 NEAR stake. */
  method SandboxScenario() returns (finalPool: U128, payouts: seq<Transfer>, events: seq<Event>)
    ensures finalPool == 11 * NEAR / 10
    ensures payouts == []
    ensures |events| == 1 && events[0].result == Lose && events[0].bet == NEAR / 10
  {
    var c, _, _, scheduled := SandboxBet();
    var resolve := Env(4, 0, [200], "simple-bet", 0);
    assert BetOutcome(200, c.winningProba) == Lose;
    payouts := c.DoBet(scheduled.value.bet, scheduled.value.bettor, resolve);
    finalPool := c.Pool();
    events := c.Events();
  }
}
