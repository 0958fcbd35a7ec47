/** The value types of the contract: `Fraction` with its multiplication
    against a balance, the outcome of a bet and the event record of a resolved bet. */
module Types {
  import opened Primitives
  import opened Host

  /** An exact ratio `num / den`; which fractions the contract accepts is decided
      by the validation in the contract itself. */
  datatype Fraction = Fraction(num: U128, den: U128)

  /** `Fraction::mul`: `num * x / den` evaluated in `u128`, so the quotient is
      rounded down. The caller must keep the `u128` product `num * x` in range
      and the denominator non-zero; the source panics otherwise. */
  function Mul(f: Fraction, x: U128): (r: U128)
    requires f.den > 0
    requires f.num as int * x as int < TWO_TO_128
    ensures r as int * f.den as int <= f.num as int * x as int < (r as int + 1) * f.den as int
  {
    var product := f.num as int * x as int;
    QuotientAtMost(product, f.den as int);
    (product / f.den as int) as U128
  }

  /** Multiplying by a natural number preserves `<=`. */
  lemma {:induction false} MulLeq(a: int, b: int, c: nat)
    requires a <= b
    ensures a * c <= b * c
  {
    if c > 0 {
      MulLeq(a, b, c - 1);
      assert a * c == a * (c - 1) + a && b * c == b * (c - 1) + b;
    }
  }

  /** A strict bound between two multiples of the same positive factor bounds the factors. */
  lemma CancelLess(a: int, b: int, d: nat)
    requires d > 0
    requires a * d < b * d
    ensures a < b
  {
    if b <= a {
      MulLeq(b, a, d);
    }
  }

  /** Integer division by a positive divisor never grows a natural number. */
  lemma QuotientAtMost(n: nat, d: int)
    requires d > 0
    ensures n / d <= n
  {
    MulLeq(1, d, n / d);
  }

  /** With `0 < num <= den` the product never exceeds the balance: this is what
      makes the pool debit of an accepted bet safe. */
  lemma MulAtMost(f: Fraction, x: U128)
    requires 0 < f.num <= f.den
    requires f.num as int * x as int < TWO_TO_128
    ensures Mul(f, x) <= x
  {
    var r, n, d := Mul(f, x) as int, f.num as int, f.den as int;
    MulLeq(n, d, x as int);
    assert r * d < (x as int + 1) * d;
    CancelLess(r, x as int + 1, d);
  }

  /** `Mul` is monotone in the balance. */
  lemma MulMonotone(f: Fraction, x: U128, y: U128)
    requires f.den > 0
    requires x <= y
    requires f.num as int * y as int < TWO_TO_128
    ensures f.num as int * x as int < TWO_TO_128
    ensures Mul(f, x) <= Mul(f, y)
  {
    var n, d := f.num as int, f.den as int;
    MulLeq(x as int, y as int, n);
    var rx, ry := Mul(f, x) as int, Mul(f, y) as int;
    assert rx * d < (ry + 1) * d;
    CancelLess(rx, ry + 1, d);
  }

  /** A zero balance yields zero. */
  lemma MulZero(f: Fraction)
    requires f.den > 0
    ensures Mul(f, 0) == 0
  {
  }

  /** The whole fraction `den / den` yields the balance itself. */
  lemma MulWhole(f: Fraction, x: U128)
    requires 0 < f.num == f.den
    requires f.num as int * x as int < TWO_TO_128
    ensures Mul(f, x) == x
  {
    var r, d := Mul(f, x) as int, f.den as int;
    assert r * d <= x as int * d < (r + 1) * d;
    CancelLess(r, x as int + 1, d);
    CancelLess(x as int, r + 1, d);
  }

  /** The two outcomes of a resolved bet. */
  datatype BetResult = Win | Lose

  /** The record of one resolved bet. */
  datatype Event = Event(
    bettor: AccountId,
    result: BetResult,
    bet: U128,
    timestamp: U64,
    blockHeight: U64)

  /** `Event::new`: the bettor, the result and the stake as given; the time and
      the block height of the resolving call as the host reports them. */
  function NewEvent(bettor: AccountId, result: BetResult, bet: U128, env: Env): (e: Event)
    ensures e.bettor == bettor && e.result == result && e.bet == bet
    ensures e.timestamp == env.blockTimestamp && e.blockHeight == env.blockHeight
  {
    Event(bettor, result, bet, env.blockTimestamp, env.blockHeight)
  }
}
