/** Money is an integer number of cents. `x.toFixed(2)` of an amount that is
    a ratio `n / d` of cents is rounding `n / d` to the nearest integer, a
    tie going away from zero (ECMAScript's Number.prototype.toFixed picks the
    larger magnitude on a tie). */
module Money {

  /** An amount of money in cents. */
  type Cents = int

  function Abs(x: int): (r: nat)
    ensures r == x || r == -x
  {
    if x < 0 then -x else x
  }

  /** `n / d` rounded to the nearest integer, ties away from zero. */
  function RoundDiv(n: int, d: int): (r: int)
    requires d > 0
    ensures -d <= 2 * (n - r * d) <= d
    ensures 2 * (n - r * d) == d ==> n < 0
    ensures 2 * (n - r * d) == -d ==> n > 0
  {
    if n >= 0 then (2 * n + d) / (2 * d) else -((2 * -n + d) / (2 * d))
  }

  /** The contract of `RoundDiv` pins down its result: any integer meeting it is that result. */
  lemma RoundDivUnique(n: int, d: int, k: int)
    requires d > 0
    requires -d <= 2 * (n - k * d) <= d
    requires 2 * (n - k * d) == d ==> n < 0
    requires 2 * (n - k * d) == -d ==> n > 0
    ensures k == RoundDiv(n, d)
  {
    var r := RoundDiv(n, d);
    assert (n - k * d) - (n - r * d) == (r - k) * d;
    if k < r {
      MulAtLeast(r - k, d);
    } else if k > r {
      MulAtLeast(k - r, d);
    }
  }

  lemma MulAtLeast(a: int, d: int)
    requires a >= 1 && d > 0
    ensures a * d >= d
  {
    assert a * d == (a - 1) * d + d;
  }

  /** Rounding a whole number of units changes nothing. */
  lemma RoundDivExact(q: int, d: int)
    requires d > 0
    ensures RoundDiv(q * d, d) == q
  {
    RoundDivUnique(q * d, d, q);
  }
}
