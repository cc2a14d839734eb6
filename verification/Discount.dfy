/** The discounted price, over the reals: the percentage is taken off and the result is rounded half up to cents. */
module Discount {
  import Payload

  /** The share of a price that is left to pay. */
  function Keep(pct: real): real {
    1.0 - pct / 100.0
  }

  /** The discounted amount in whole cents. Go's conversion to int64 drops the fraction. */
  function Cents(amount: real, pct: real): int {
    Payload.Truncate(amount * Keep(pct) * 100.0 + 0.5)
  }

  function DiscountedAmount(amount: real, pct: real): real {
    Cents(amount, pct) as real / 100.0
  }

  /** The exact price, before rounding. */
  function Exact(amount: real, pct: real): real {
    amount * Keep(pct)
  }

  lemma ProductNonNegative(a: real, b: real)
    requires a >= 0.0 && b >= 0.0
    ensures a * b >= 0.0
  {
  }

  lemma ProductMonotone(a: real, b: real, c: real)
    requires a <= b && c >= 0.0
    ensures a * c <= b * c && c * a <= c * b
  {
    ProductNonNegative(b - a, c);
    assert (b - a) * c == b * c - a * c;
  }

  lemma ShareIsLess(a: real, share: real)
    requires a >= 0.0 && 0.0 <= share <= 1.0
    ensures 0.0 <= a * share <= a
  {
    ProductNonNegative(a, share);
    ProductNonNegative(a, 1.0 - share);
    assert a * (1.0 - share) == a - a * share;
  }

  lemma ExactNonNegative(amount: real, pct: real)
    requires amount >= 0.0 && 0.0 < pct <= 100.0
    ensures 0.0 <= Exact(amount, pct) <= amount
  {
    assert 0.0 <= Keep(pct) <= 1.0;
    ShareIsLess(amount, Keep(pct));
  }

  lemma FloorMonotone(x: real, y: real)
    requires x <= y
    ensures x.Floor <= y.Floor
  {
  }

  /** The result is a non-negative whole number of cents within half a cent of the exact price. */
  lemma RoundsToTheCent(amount: real, pct: real)
    requires amount >= 0.0 && 0.0 < pct <= 100.0
    ensures DiscountedAmount(amount, pct) * 100.0 == Cents(amount, pct) as real && Cents(amount, pct) >= 0
    ensures -0.005 <= Exact(amount, pct) - DiscountedAmount(amount, pct) < 0.005
  {
    ExactNonNegative(amount, pct);
    var x := Exact(amount, pct) * 100.0 + 0.5;
    assert x >= 0.0;
    assert Cents(amount, pct) == x.Floor;
  }

  /** In plain terms: the percentage is taken off the amount, and the rest is rounded to the nearest cent, half a cent
      up. */
  lemma TakesThePercentageOff(amount: real, pct: real)
    requires amount >= 0.0 && 0.0 < pct <= 100.0
    ensures var exact := amount - amount * pct / 100.0;
            exact - 0.005 < DiscountedAmount(amount, pct) <= exact + 0.005
  {
    RoundsToTheCent(amount, pct);
    assert Exact(amount, pct) == amount - amount * pct / 100.0;
  }

  /** A dearer stay never costs less after the discount. */
  lemma MonotoneInAmount(a: real, b: real, pct: real)
    requires 0.0 <= a <= b && 0.0 < pct <= 100.0
    ensures DiscountedAmount(a, pct) <= DiscountedAmount(b, pct)
  {
    ExactNonNegative(a, pct);
    ExactNonNegative(b, pct);
    ProductMonotone(a, b, Keep(pct));
    FloorMonotone(Exact(a, pct) * 100.0 + 0.5, Exact(b, pct) * 100.0 + 0.5);
  }

  /** A larger percentage never costs more. */
  lemma AntitoneInPercent(amount: real, p: real, q: real)
    requires amount >= 0.0 && 0.0 < p <= q <= 100.0
    ensures DiscountedAmount(amount, q) <= DiscountedAmount(amount, p)
  {
    ExactNonNegative(amount, p);
    ExactNonNegative(amount, q);
    ProductMonotone(Keep(q), Keep(p), amount);
    FloorMonotone(Exact(amount, q) * 100.0 + 0.5, Exact(amount, p) * 100.0 + 0.5);
  }

  /** When the discounted price is not above the price: exactly when the exact discounted price, in cents, stays below
      the next half cent after the whole cents of the price. */
  lemma NeverAboveIff(amount: real, pct: real)
    requires amount >= 0.0 && 0.0 < pct <= 100.0
    ensures DiscountedAmount(amount, pct) <= amount <==>
              Exact(amount, pct) * 100.0 < (amount * 100.0).Floor as real + 0.5
  {
    ExactNonNegative(amount, pct);
    var x, y := Exact(amount, pct) * 100.0 + 0.5, amount * 100.0;
    assert Cents(amount, pct) == x.Floor;
    assert DiscountedAmount(amount, pct) <= amount <==> x.Floor as real <= y;
    assert x.Floor as real <= y <==> x.Floor <= y.Floor;
    assert x.Floor <= y.Floor <==> x < y.Floor as real + 1.0;
  }

  /** A price in whole cents never goes up. */
  lemma NeverAboveWholeCents(cents: nat, pct: real)
    requires 0.0 < pct <= 100.0
    ensures DiscountedAmount(cents as real / 100.0, pct) <= cents as real / 100.0
  {
    var amount := cents as real / 100.0;
    ExactNonNegative(amount, pct);
    assert (amount * 100.0).Floor == cents;
    NeverAboveIff(amount, pct);
  }

  /** It can be above: six tenths of a cent at one percent off are charged as a whole cent. */
  lemma FractionsCanGoUp()
    ensures DiscountedAmount(0.006, 1.0) > 0.006
  {
    assert Exact(0.006, 1.0) * 100.0 + 0.5 == 1.094;
    assert (1.094).Floor == 1;
  }
}
