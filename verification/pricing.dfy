/**
 * The referral discount of the card checkout. Money is in kopecks; the
 * discount setting is a percentage given as an exact fraction.
 */
module Pricing {
  import opened Wrappers

  type Pos = n: int | n > 0 witness 1

  /** A percentage `num / den`: the setting `12.5` is `Percent(125, 10)`. */
  datatype Percent = Percent(num: int, den: Pos)

  function Abs(x: int): int { if x < 0 then -x else x }

  /**
   * `n / d` rounded to the nearest integer, ties to the even neighbour: what
   * `Decimal.quantize` does under the default context (ROUND_HALF_EVEN).
   */
  function RoundHalfEven(n: int, d: Pos): (q: int)
    ensures q == n / d || (q == n / d + 1 && n % d > 0)
    ensures 2 * Abs(n - q * d) <= d
    ensures 2 * Abs(n - q * d) == d ==> q % 2 == 0
  {
    var f, r := n / d, n % d;
    assert n - f * d == r;
    assert n - (f + 1) * d == r - d;
    if 2 * r < d then f
    else if 2 * r > d then f + 1
    else if f % 2 == 0 then f
    else f + 1
  }

  lemma MulMonotone(a: int, b: int, d: Pos)
    requires a <= b
    ensures a * d <= b * d
  {
    assert (b - a) * d >= 0;
  }

  /** A quotient of a value between 0 and `k * d` lies between 0 and `k`, exact when it is `k`. */
  lemma QuotientBetween(n: int, d: Pos, k: int)
    requires 0 <= n <= k * d
    ensures 0 <= n / d <= k
    ensures n / d == k ==> n % d == 0
  {
    var f, r := n / d, n % d;
    assert n == f * d + r && 0 <= r < d;
    if f < 0 {
      MulMonotone(f, -1, d);
      assert false;
    }
    if f > k {
      MulMonotone(k + 1, f, d);
      assert false;
    }
    if f == k {
      assert r == n - k * d;
    }
  }

  /** Rounding a quotient that lies between 0 and `k` stays between 0 and `k`. */
  lemma RoundHalfEvenBetween(n: int, d: Pos, k: int)
    requires 0 <= n <= k * d
    ensures 0 <= RoundHalfEven(n, d) <= k
  {
    QuotientBetween(n, d, k);
  }

  /** The discount in kopecks: `price * discount / 100`, quantized to 0.01 of a rouble. */
  function DiscountAmount(priceKop: int, discount: Percent): int
  {
    RoundHalfEven(priceKop * discount.num, 100 * discount.den)
  }

  /** A user referred by a non-zero id who has spent nothing, with a positive discount setting. */
  predicate DiscountApplies(referredBy: Option<int>, totalSpentKop: int, discount: Percent)
  {
    referredBy.Some? && referredBy.value != 0 && totalSpentKop == 0 && discount.num > 0
  }

  /** The price charged at checkout. */
  function ReferralPrice(priceKop: int, referredBy: Option<int>, totalSpentKop: int, discount: Percent): (r: int)
    ensures !DiscountApplies(referredBy, totalSpentKop, discount) ==> r == priceKop
    ensures DiscountApplies(referredBy, totalSpentKop, discount) ==>
              var d := 100 * discount.den;
              && 2 * Abs(priceKop * discount.num - (priceKop - r) * d) <= d
              && (2 * Abs(priceKop * discount.num - (priceKop - r) * d) == d ==> (priceKop - r) % 2 == 0)
  {
    if DiscountApplies(referredBy, totalSpentKop, discount) then
      var amount := DiscountAmount(priceKop, discount);
      assert priceKop - (priceKop - amount) == amount;
      priceKop - amount
    else priceKop
  }

  /** For a discount between 0% and 100%, the price charged is between 0 and the list price. */
  lemma ReferralPriceBounds(priceKop: int, referredBy: Option<int>, totalSpentKop: int, discount: Percent)
    requires priceKop >= 0
    requires 0 <= discount.num <= 100 * discount.den
    ensures 0 <= ReferralPrice(priceKop, referredBy, totalSpentKop, discount) <= priceKop
  {
    if DiscountApplies(referredBy, totalSpentKop, discount) {
      var n, d := priceKop * discount.num, 100 * discount.den;
      assert 0 <= n <= priceKop * d by {
        assert priceKop * discount.num <= priceKop * (100 * discount.den);
      }
      RoundHalfEvenBetween(n, d, priceKop);
    }
  }
}
