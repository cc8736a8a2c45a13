/** Value types shared by every model file (engine/smc/types.py), and the two rounding rules. */
module Types {

  datatype Option<+T> = None | Some(value: T)

  datatype Kind = High | Low

  datatype Side = Long | Short

  /** A lean of "none" is the absence of a side. */
  type TradeDirection = Option<Side>

  datatype Pivot = Pivot(time: int, price: real, kind: Kind)

  datatype Candle = Candle(time: int, open: real, high: real, low: real, close: real)

  ghost predicate Ascending(bars: seq<Candle>) {
    forall i, j :: 0 <= i < j < |bars| ==> bars[i].time < bars[j].time
  }

  function Abs(x: real): real { if x < 0.0 then -x else x }

  function Max(x: real, y: real): real { if x >= y then x else y }

  function Min(x: real, y: real): real { if x <= y then x else y }

  /** Half-up rounding to `1/scale`: floor(x * scale + 1/2) / scale. */
  function RoundHalfUp(x: real, scale: real): (r: real)
    requires scale > 0.0
    ensures -0.5 < (r - x) * scale <= 0.5
  {
    var n := (x * scale + 0.5).Floor as real;
    assert (n / scale - x) * scale == n - x * scale;
    n / scale
  }

  lemma {:induction false} FloorIs(k: int, z: real)
    ensures k as real <= z < k as real + 1.0 <==> z.Floor == k
  {}

  /** The two-digit `_round` every settlement path uses. */
  function Round2(x: real): real { RoundHalfUp(x, 100.0) }

  /** Concatenation of the parts, in order. */
  function Flatten<T>(parts: seq<seq<T>>): seq<T> {
    if |parts| == 0 then [] else Flatten(parts[..|parts| - 1]) + parts[|parts| - 1]
  }

  lemma {:induction false} DivMonotone(a: real, b: real, d: real)
    requires a <= b && d > 0.0
    ensures a / d <= b / d
  {
    var gap := (b - a) / d;
    assert gap * d == b - a && gap >= 0.0;
    assert (a / d + gap) * d == b;
  }

  lemma {:induction false} RoundMonotone(x: real, y: real, scale: real)
    requires x <= y && scale > 0.0
    ensures RoundHalfUp(x, scale) <= RoundHalfUp(y, scale)
  {
    assert (y - x) * scale >= 0.0;
    assert (x * scale + 0.5).Floor <= (y * scale + 0.5).Floor;
    DivMonotone((x * scale + 0.5).Floor as real, (y * scale + 0.5).Floor as real, scale);
  }

  /** `x` is `part / whole` to half a step of `1 / scale`. */
  ghost predicate WithinHalf(x: real, part: real, whole: real, scale: real) {
    -0.5 * whole < (x * whole - part) * scale <= 0.5 * whole
  }

  lemma {:induction false} QuotientWithinHalf(part: real, whole: real, scale: real)
    requires whole > 0.0 && scale > 0.0
    ensures WithinHalf(RoundHalfUp(part / whole, scale), part, whole, scale)
  {
    var q := part / whole;
    StepsOver(RoundHalfUp(q, scale), q, part, whole, scale);
  }

  lemma {:induction false} PercentWithinHalf(part: real, whole: real)
    requires whole > 0.0
    ensures WithinHalf(RoundHalfUp(part / whole * 100.0, 10.0), 100.0 * part, whole, 10.0)
  {
    var q := part / whole;
    assert q * whole == part;
    StepsOver(RoundHalfUp(q * 100.0, 10.0), q * 100.0, 100.0 * part, whole, 10.0);
  }

  lemma {:induction false} StepsOver(x: real, q: real, part: real, whole: real, scale: real)
    requires whole > 0.0 && q * whole == part && -0.5 < (x - q) * scale <= 0.5
    ensures WithinHalf(x, part, whole, scale)
  {
    var off := x - q;
    Between(off * scale, whole);
    Regroup(off, scale, whole);
    assert off * whole == x * whole - part;
  }

  lemma {:induction false} Between(gap: real, whole: real)
    requires whole > 0.0 && -0.5 < gap <= 0.5
    ensures -0.5 * whole < gap * whole
    ensures gap * whole <= 0.5 * whole
  {
    assert (gap + 0.5) * whole > 0.0;
    assert (0.5 - gap) * whole >= 0.0;
  }

  lemma {:induction false} Regroup(a: real, b: real, c: real)
    ensures a * b * c == a * c * b
  {}
}
