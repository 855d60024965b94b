/** The taker-fee law every cost in the repository is built from (sim/census.py).
    Money is in dollars, as exact reals. */
module Fees {

  /** The smallest integer that is at least `x`. */
  function Ceil(x: real): (c: int)
    ensures c as real - 1.0 < x <= c as real
  {
    -((-x).Floor)
  }

  /** Taker fee for one contract at price `p`: 7% of p(1-p), rounded up to $0.0001. */
  function Fee(p: real): real {
    Ceil(0.07 * p * (1.0 - p) * 10000.0) as real / 10000.0
  }

  /** What one leg costs a taker: its price and its fee. */
  function LegCost(p: real): real {
    p + Fee(p)
  }

  /** The cost C of a pair: each leg pays the fee on its own price. */
  function CostC(a: real, b: real): real {
    LegCost(a) + LegCost(b)
  }

  predicate IsPrice(p: real) {
    0.0 <= p <= 1.0
  }

  /** Two prices are a tick apart when they differ by at least $0.0001 or not at all. */
  predicate TickApart(p: real, q: real) {
    p == q || q - p >= 0.0001
  }

  /** The price before a rounding to the fee grid: `Fee` is `Ceil` of this, in ticks. */
  function RawTicks(p: real): real {
    0.07 * p * (1.0 - p) * 10000.0
  }

  lemma ProductNonnegative(a: real, b: real)
    requires a >= 0.0 && b >= 0.0
    ensures a * b >= 0.0
  {}

  lemma SquareNonnegative(x: real)
    ensures x * x >= 0.0
  {
    if x >= 0.0 {
      ProductNonnegative(x, x);
    } else {
      ProductNonnegative(-x, -x);
      assert x * x == -x * -x;
    }
  }

  lemma RawTicksFactor(p: real, q: real)
    ensures RawTicks(p) - RawTicks(q) == 700.0 * ((q - p) * (p + q - 1.0))
  {
    assert RawTicks(p) == 700.0 * (p * (1.0 - p));
    assert RawTicks(q) == 700.0 * (q * (1.0 - q));
    assert p * (1.0 - p) - q * (1.0 - q) == (q - p) * (p + q - 1.0);
  }

  /** Rounding up to a tick, told by what is rounded. */
  lemma TickAbove(x: real, raw: real, fee: real)
    requires raw == 700.0 * x && fee == Ceil(raw) as real / 10000.0
    ensures fee * 10000.0 == (fee * 10000.0).Floor as real
    ensures 0.07 * x <= fee < 0.07 * x + 0.0001
  {
    assert fee * 10000.0 == Ceil(raw) as real;
  }

  lemma RawIsProduct(p: real)
    ensures RawTicks(p) == 700.0 * (p * (1.0 - p))
  {}

  /** The fee is a whole number of hundredths of a cent: the first at or above 7% of p(1-p). */
  lemma FeeIsExact(p: real)
    ensures Fee(p) * 10000.0 == (Fee(p) * 10000.0).Floor as real
    ensures 0.07 * (p * (1.0 - p)) <= Fee(p) < 0.07 * (p * (1.0 - p)) + 0.0001
  {
    RawIsProduct(p);
    TickAbove(p * (1.0 - p), RawTicks(p), Fee(p));
  }

  /** A pair costs its two prices and a fee on each. */
  lemma CostIsExact(a: real, b: real)
    ensures CostC(a, b) == a + b + Fee(a) + Fee(b)
    ensures 0.07 * (a * (1.0 - a)) + 0.07 * (b * (1.0 - b)) <= CostC(a, b) - a - b
    ensures CostC(a, b) - a - b < 0.07 * (a * (1.0 - a)) + 0.07 * (b * (1.0 - b)) + 0.0002
  {
    FeeIsExact(a);
    FeeIsExact(b);
  }

  lemma FeeIsSymmetric(p: real)
    ensures Fee(p) == Fee(1.0 - p)
  {
    assert RawTicks(p) == RawTicks(1.0 - p);
  }

  lemma FeeIsBounded(p: real)
    requires IsPrice(p)
    ensures 0.0 <= Fee(p) <= 0.0175
  {
    assert p * (1.0 - p) == 0.25 - (p - 0.5) * (p - 0.5);
    SquareNonnegative(p - 0.5);
    ProductNonnegative(p, 1.0 - p);
    assert RawTicks(p) == 700.0 * (p * (1.0 - p));
    assert 0.0 <= RawTicks(p) <= 175.0;
  }

  /** Between two prices the fee falls by a whole number of ticks, and by less than 7% of
      the rise in price plus one tick. */
  lemma FeeDrop(p: real, q: real) returns (drop: int)
    requires IsPrice(p) && IsPrice(q) && p <= q
    ensures 10000.0 * (Fee(p) - Fee(q)) == drop as real
    ensures drop as real < 700.0 * (q - p) + 1.0
  {
    drop := Ceil(RawTicks(p)) - Ceil(RawTicks(q));
    RawTicksFactor(p, q);
    var d, s := q - p, p + q - 1.0;
    ProductNonnegative(d, 1.0 - s);
    assert d * (1.0 - s) == d - d * s;
  }

  /** Raising a price raises the cost of the leg exactly when the rise is at least a tick or
      crosses no downward step of the fee. */
  lemma LegCostIsMonotoneIff(p: real, q: real)
    requires IsPrice(p) && IsPrice(q) && p <= q
    ensures LegCost(p) <= LegCost(q) <==> TickApart(p, q) || Fee(p) <= Fee(q)
  {
    var drop := FeeDrop(p, q);
    TicksOutweigh(q - p, Fee(p) - Fee(q), drop);
  }

  lemma TicksOutweigh(rise: real, fall: real, ticks: int)
    requires rise >= 0.0
    requires 10000.0 * fall == ticks as real
    requires ticks as real < 700.0 * rise + 1.0
    ensures fall <= rise <==> rise >= 0.0001 || fall <= 0.0
  {}

  /** Below a tick the claim fails: a fee step sits between these two prices. */
  lemma LegCostCanDip()
    ensures LegCost(0.53779) > LegCost(0.53780)
    ensures !TickApart(0.53779, 0.53780)
  {
    assert Ceil(RawTicks(0.53779)) == 175;
    assert Ceil(RawTicks(0.53780)) == 174;
  }

  lemma CostIsMonotone(a: real, b: real, a': real, b': real)
    requires IsPrice(a) && IsPrice(b) && IsPrice(a') && IsPrice(b')
    requires a <= a' && b <= b'
    requires TickApart(a, a') && TickApart(b, b')
    ensures CostC(a, b) <= CostC(a', b')
  {
    LegCostIsMonotoneIff(a, a');
    LegCostIsMonotoneIff(b, b');
  }

  // ----- Prices on the four-decimal grid -----

  /** A four-decimal price. */
  function GridPrice(n: int): real {
    n as real / 10000.0
  }

  ghost predicate OnGrid(p: real) {
    exists n: int :: p == GridPrice(n)
  }

  lemma GridIsTickApart(p: real, q: real)
    requires OnGrid(p) && OnGrid(q) && p <= q
    ensures TickApart(p, q) && TickApart(1.0 - q, 1.0 - p)
  {
    var m: int :| p == GridPrice(m);
    var n: int :| q == GridPrice(n);
    assert q - p == (n - m) as real / 10000.0;
  }

  lemma FeeIsOnGrid(p: real)
    ensures OnGrid(Fee(p))
  {
    assert Fee(p) == GridPrice(Ceil(RawTicks(p)));
  }

  lemma GridSum(p: real, q: real)
    requires OnGrid(p) && OnGrid(q)
    ensures OnGrid(p + q)
  {
    var m: int :| p == GridPrice(m);
    var n: int :| q == GridPrice(n);
    assert p + q == GridPrice(m + n);
  }

  /** A pair bought at grid prices costs a whole number of ticks. */
  lemma GridCost(a: real, b: real)
    requires OnGrid(a) && OnGrid(b)
    ensures OnGrid(CostC(a, b))
  {
    FeeIsOnGrid(a);
    FeeIsOnGrid(b);
    GridSum(a, Fee(a));
    GridSum(b, Fee(b));
    GridSum(LegCost(a), LegCost(b));
  }
}
