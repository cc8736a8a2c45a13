/** Quoted prices (engine/smc/quant.py): rounding to a number of decimals that grows as the price gets smaller. */
module Quotes {
  import opened Types

  /** One over the quoting step at this magnitude: 2, 4 and 6 decimals, then five significant digits, 12 at most. */
  function PriceScale(magnitude: real): (scale: real)
    ensures scale > 0.0
  {
    if magnitude >= 100.0 then 100.0
    else if magnitude >= 1.0 then 10000.0
    else if magnitude >= 0.01 then 1000000.0
    else if magnitude >= 0.001 then 10000000.0
    else if magnitude >= 0.0001 then 100000000.0
    else if magnitude >= 0.00001 then 1000000000.0
    else if magnitude >= 0.000001 then 10000000000.0
    else if magnitude >= 0.0000001 then 100000000000.0
    else 1000000000000.0
  }

  function RoundPrice(x: real): real { RoundHalfUp(x, PriceScale(Abs(x))) }

  /** The least magnitude quoted with the same step, zero for the smallest. */
  function BandStart(magnitude: real): real {
    if magnitude >= 100.0 then 100.0
    else if magnitude >= 1.0 then 1.0
    else if magnitude >= 0.01 then 0.01
    else if magnitude >= 0.001 then 0.001
    else if magnitude >= 0.0001 then 0.0001
    else if magnitude >= 0.00001 then 0.00001
    else if magnitude >= 0.000001 then 0.000001
    else if magnitude >= 0.0000001 then 0.0000001
    else 0.0
  }

  predicate OnGrid(price: real, scale: real) { (price * scale).Floor as real == price * scale }

  lemma {:induction false} RoundsToItself(price: real, scale: real)
    requires scale > 0.0 && OnGrid(price, scale)
    ensures RoundHalfUp(price, scale) == price
  {
    var y := price * scale;
    var k := y.Floor;
    assert k as real == y;
    FloorIs(k, y + 0.5);
    Undo(price, scale);
  }

  lemma {:induction false} Undo(price: real, scale: real)
    requires scale > 0.0
    ensures price * scale / scale == price
  {
    var q := price * scale / scale;
    assert (q - price) * scale == 0.0;
  }

  /** No rounding crosses a price on its own grid. */
  lemma {:induction false} NeverCrosses(x: real, border: real)
    requires OnGrid(border, PriceScale(Abs(x)))
    ensures x <= border ==> RoundPrice(x) <= border
    ensures border <= x ==> border <= RoundPrice(x)
  {
    var scale := PriceScale(Abs(x));
    hide PriceScale, OnGrid;
    RoundsToItself(border, scale);
    if x <= border { RoundMonotone(x, border, scale); }
    if border <= x { RoundMonotone(border, x, scale); }
  }

  /** Where a coarser band starts is on its own grid and on every finer one. */
  lemma {:induction false} StartsOnGrid(small: real, large: real)
    requires 0.0 <= small <= large
    ensures OnGrid(BandStart(large), PriceScale(small))
    ensures PriceScale(small) != PriceScale(large) ==> small <= BandStart(large)
    ensures BandStart(large) <= large
  {}

  lemma {:induction false} GridIsEven(price: real, scale: real)
    requires OnGrid(price, scale)
    ensures OnGrid(-price, scale)
  {
    var k := (price * scale).Floor;
    assert -price * scale == (-k) as real;
    FloorIs(-k, -price * scale);
  }

  /** Quoting never changes the order of two prices, across bands included. */
  lemma {:induction false} RoundPriceMonotone(x: real, y: real)
    requires x <= y
    ensures RoundPrice(x) <= RoundPrice(y)
  {
    hide PriceScale, BandStart, OnGrid;
    if PriceScale(Abs(x)) == PriceScale(Abs(y)) {
      RoundMonotone(x, y, PriceScale(Abs(x)));
    } else {
      var border := BorderBetween(x, y);
      NeverCrosses(x, border);
      NeverCrosses(y, border);
    }
  }

  lemma {:induction false} BorderBetween(x: real, y: real) returns (border: real)
    requires x <= y && PriceScale(Abs(x)) != PriceScale(Abs(y))
    ensures x <= border <= y
    ensures OnGrid(border, PriceScale(Abs(x))) && OnGrid(border, PriceScale(Abs(y)))
  {
    hide PriceScale, BandStart;
    if x <= 0.0 <= y {
      border := 0.0;
    } else if x > 0.0 {
      border := BandStart(y);
      StartsOnGrid(x, y);
      StartsOnGrid(y, y);
    } else {
      border := -BandStart(-x);
      StartsOnGrid(-y, -x);
      StartsOnGrid(-x, -x);
      GridIsEven(-border, PriceScale(-x));
      GridIsEven(-border, PriceScale(-y));
    }
  }

  /** So quoted prices are on the wrong side of each other exactly when the prices are and the step tells them apart. */
  lemma {:induction false} QuotedOrderIff(x: real, y: real)
    ensures RoundPrice(x) < RoundPrice(y) <==> x < y && RoundPrice(x) != RoundPrice(y)
  {
    hide RoundPrice;
    if x < y { RoundPriceMonotone(x, y); } else { RoundPriceMonotone(y, x); }
  }

  /** No price down to 1e-8 collapses: its quote is within one part in twenty thousand. */
  lemma {:induction false} RoundPriceKeeps(x: real)
    requires Abs(x) >= 0.00000001
    ensures 20000.0 * Abs(RoundPrice(x) - x) <= Abs(x)
  {
    var scale, gap := PriceScale(Abs(x)), RoundPrice(x) - x;
    assert Abs(x) * scale >= 10000.0;
    assert -0.5 < gap * scale <= 0.5;
    hide PriceScale, RoundPrice;
    StepWithin(gap, Abs(x), scale);
  }

  lemma {:induction false} StepWithin(gap: real, magnitude: real, scale: real)
    requires scale > 0.0 && magnitude * scale >= 10000.0 && -0.5 <= gap * scale <= 0.5
    ensures 20000.0 * Abs(gap) <= magnitude
  {
    assert (magnitude - 20000.0 * gap) * scale >= 0.0 && (magnitude + 20000.0 * gap) * scale >= 0.0;
  }
}
