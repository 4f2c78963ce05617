/** The per-stock price nudge applied by one timer tick.

    Prices are counted in cents: the source keeps them as `decimal` values with
    two fractional digits, and every change is rounded to two digits, so a price
    is always a whole number of cents. The draws of `System.Random` are
    parameters; the `double` arithmetic that scales a draw into a percentage is
    taken as exact real arithmetic. */
module Pricing {

  /** A value returned by `Random.NextDouble`: a real in [0, 1). */
  type Fraction = x: real | 0.0 <= x < 1.0

  /** A stock is left alone when the update draw exceeds this threshold. */
  const UpdateThreshold: real := 0.1

  /** The largest fraction of its price by which a stock moves in one nudge. */
  const RangePercent: real := 0.002

  /** The move is upwards only when the sign draw exceeds this threshold. */
  const SignThreshold: real := 0.51

  /** The two draws of the generator that is seeded from a stock's price:
      first the magnitude, then the sign. */
  datatype SeededDraws = SeededDraws(magnitude: Fraction, sign: Fraction)

  /** What one nudge reports (the source's boolean result) and the new price. */
  datatype Nudged = Nudged(updated: bool, price: int)

  /** `n` is `x` rounded to the nearest integer, ties going to the even
      neighbour: the rounding `Math.Round(decimal, int)` applies by default. */
  ghost predicate RoundsTo(x: real, n: int)
  {
    x - 0.5 <= n as real <= x + 0.5 &&
    ((n as real - x == 0.5 || x - n as real == 0.5) ==> n % 2 == 0)
  }

  /** Banker's rounding of `x` to a whole number. */
  function RoundHalfEven(x: real): (n: int)
    ensures RoundsTo(x, n)
  {
    var f := x.Floor;
    var frac := x - f as real;
    if frac < 0.5 then f
    else if frac > 0.5 then f + 1
    else if f % 2 == 0 then f
    else f + 1
  }

  /** At most one integer is the banker's rounding of a real, so `RoundsTo`
      pins the rounded value down completely. */
  lemma RoundingIsUnique(x: real, n: int, m: int)
    requires RoundsTo(x, n) && RoundsTo(x, m)
    ensures n == m
  {
  }

  /** The source's `percentChange`: the magnitude draw scaled by the range. */
  function PercentChange(magnitude: Fraction): (pc: real)
    ensures 0.0 <= pc < RangePercent
  {
    magnitude * RangePercent
  }

  /** The seed of the per-stock generator: the price in whole currency units,
      rounded down (`Math.Floor(stock.Price)`). */
  function Seed(price: int): (seed: int)
    ensures seed * 100 <= price < seed * 100 + 100
  {
    price / 100
  }

  /** One call of `TryUpdateStockPrice` on a stock priced `price` cents, with
      update draw `r` and the seeded generator's draws given by `seeded`. */
  function Nudge(price: int, r: Fraction, seeded: int -> SeededDraws): (n: Nudged)
    ensures n.updated <==> r <= UpdateThreshold
    ensures !n.updated ==> n.price == price
    ensures n.updated ==>
      var d := seeded(Seed(price));
      RoundsTo(RawChange(price, d.magnitude),
               if d.sign > SignThreshold then n.price - price else price - n.price)
  {
    if r > UpdateThreshold then Nudged(false, price)
    else Nudged(true, price + SignedChange(price, seeded(Seed(price))))
  }

  /** The source's `change` before rounding, in cents: the price scaled by
      the percentage. Its size stays below the range fraction of the price's
      size, and it has the sign of the price. */
  function RawChange(price: int, magnitude: Fraction): (x: real)
    ensures -MaxMove(price) <= x <= MaxMove(price)
    ensures price >= 0 ==> 0.0 <= x
    ensures price <= 0 ==> x <= 0.0
  {
    ScaledBelowRange(price, PercentChange(magnitude));
    price as real * PercentChange(magnitude)
  }

  /** The range fraction of a price's size, in cents. */
  function MaxMove(price: int): (m: real)
    ensures m >= 0.0
  {
    Abs(price) as real * RangePercent
  }

  /** The source's `change` after its sign is applied: the raw change rounded
      to whole cents, negated unless the sign draw is high. */
  function SignedChange(price: int, d: SeededDraws): (c: int)
    ensures RoundsTo(RawChange(price, d.magnitude), if d.sign > SignThreshold then c else -c)
  {
    var change := RoundHalfEven(RawChange(price, d.magnitude));
    if d.sign > SignThreshold then change else -change
  }

  /** A signed change is at most the range fraction of the price's size plus
      half a cent, and never takes a positive price to zero or below. */
  lemma SignedChangeIsBounded(price: int, d: SeededDraws)
    ensures -(MaxMove(price) + 0.5) <= SignedChange(price, d) as real <= MaxMove(price) + 0.5
    ensures price > 0 ==> price + SignedChange(price, d) > 0
  {
    var x := RawChange(price, d.magnitude);
    var c := SignedChange(price, d);
    RoundedStaysWithin(x, if d.sign > SignThreshold then c else -c, MaxMove(price));
  }

  /** A nudge moves a price by at most the range fraction of its size plus the
      half cent that rounding may add. */
  lemma NudgeDriftIsBounded(price: int, r: Fraction, seeded: int -> SeededDraws)
    ensures var delta := Nudge(price, r, seeded).price - price;
      -(MaxMove(price) + 0.5) <= delta as real <= MaxMove(price) + 0.5
  {
    if r <= UpdateThreshold {
      SignedChangeIsBounded(price, seeded(Seed(price)));
    }
  }

  /** A stock with a positive price keeps a positive price: the source never
      clamps prices, and it never needs to for a stock that starts above zero. */
  lemma NudgeKeepsPricePositive(price: int, r: Fraction, seeded: int -> SeededDraws)
    requires price > 0
    ensures Nudge(price, r, seeded).price > 0
  {
    if r <= UpdateThreshold {
      SignedChangeIsBounded(price, seeded(Seed(price)));
    }
  }

  /** The nudge depends on the seeded generator only at the seed taken from the
      price, so stocks whose prices share their whole-currency part move by the
      same draws. */
  lemma NudgeDependsOnSeedOnly(price: int, r: Fraction, seeded: int -> SeededDraws, other: int -> SeededDraws)
    requires seeded(Seed(price)) == other(Seed(price))
    ensures Nudge(price, r, seeded) == Nudge(price, r, other)
  {
  }

  /** Rounding can carry a nudge past the range fraction of the price: a price
      of 300 cents and a magnitude draw of 0.99 give a raw change of 0.594
      cents, which rounds up to a whole cent, more than 0.002 x 300 = 0.6 cents. */
  lemma RoundingCanExceedRange()
    ensures var n := Nudge(300, 0.0, _ => SeededDraws(0.99, 0.9));
      n.updated && n.price == 301 && (n.price - 300) as real > 300.0 * RangePercent
  {
  }

  /** The same excess shows at a default price: AAPL at 158.44 with a seeded
      magnitude draw of 0.999 has a raw change of about 31.66 cents, which rounds
      to 32 cents, more than 0.002 x 15844 = 31.688 cents. */
  lemma RoundingCanExceedRangeAtDefaultPrice()
    ensures var n := Nudge(15844, 0.0, _ => SeededDraws(0.999, 0.9));
      n.updated && n.price == 15876 && (n.price - 15844) as real > 15844.0 * RangePercent
  {
  }

  /** Rounding a real that lies within `bound` of zero lands within half a
      unit more. */
  lemma RoundedStaysWithin(x: real, c: int, bound: real)
    requires RoundsTo(x, c) && -bound <= x <= bound
    ensures -(bound + 0.5) <= c as real <= bound + 0.5
    ensures -(bound + 0.5) <= (-c) as real <= bound + 0.5
  {
  }

  function Abs(n: int): (a: nat)
    ensures a == n || a == -n
  {
    if n < 0 then -n else n
  }

  /** Scaling a price by a fraction below `RangePercent` stays within the range
      fraction of the price's size, with the sign of the price. */
  lemma ScaledBelowRange(price: int, pc: real)
    requires 0.0 <= pc < RangePercent
    ensures -MaxMove(price) <= price as real * pc <= MaxMove(price)
    ensures price >= 0 ==> 0.0 <= price as real * pc
    ensures price <= 0 ==> price as real * pc <= 0.0
  {
    var a := Abs(price) as real;
    ProductOfNonNegatives(a, pc);
    ProductOfNonNegatives(a, RangePercent - pc);
    assert a * (RangePercent - pc) == a * RangePercent - a * pc;
    if price >= 0 {
      assert price as real * pc == a * pc;
    } else {
      assert price as real * pc == -(a * pc);
    }
  }

  lemma ProductOfNonNegatives(a: real, b: real)
    requires 0.0 <= a && 0.0 <= b
    ensures 0.0 <= a * b
  {
  }
}
