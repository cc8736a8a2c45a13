/** The derivatives read plane: scores, deltas and sparklines (backend/app/derivatives/service.py). A
    reading that is missing or not finite is `None`; `ln` stands for the logarithm and stays arbitrary. */
module Derivatives {
  import opened Types

  const SNAPSHOT_INTERVAL := 300
  const FUNDING_BOUND := 0.0005
  const LOG_RATIO_BOUND := 0.7
  const PREMIUM_BOUND := 0.001
  const EXPANSION_EPS := 0.05

  datatype Sample = Sample(
    time: int, openInterest: Option<real>, price: Option<real>, funding: Option<real>, premium: Option<real>,
    longShort: Option<real>, topAccounts: Option<real>, topPositions: Option<real>, takerBuy: Option<real>,
    takerSell: Option<real>)

  datatype Reading = OpenInterest | Price

  function Read(p: Sample, reading: Reading): Option<real> {
    if reading == OpenInterest then p.openInterest else p.price
  }

  // ---------------------------------------------------------------- rounding

  /** Rounding to the nearest integer, halves to the even one. */
  function RoundEven(y: real): int {
    var n := y.Floor;
    if y - n as real < 0.5 then n else if y - n as real > 0.5 then n + 1 else if n % 2 == 0 then n else n + 1
  }

  /** The nearest integer; halfway, the even one. */
  lemma {:induction false} RoundEvenMeaning(y: real)
    ensures var n := RoundEven(y);
            && -0.5 <= n as real - y <= 0.5
            && (n as real - y == 0.5 || n as real - y == -0.5 ==> n % 2 == 0)
  {}

  function RoundTo(x: real, scale: real): real
    requires scale > 0.0
  {
    RoundEven(x * scale) as real / scale
  }

  function Round1(x: real): real { RoundTo(x, 10.0) }

  function Round8(x: real): real { RoundTo(x, 100000000.0) }

  lemma {:induction false} RoundEvenMonotone(a: real, b: real)
    requires a <= b
    ensures RoundEven(a) <= RoundEven(b)
  {
    assert a.Floor <= b.Floor;
  }

  /** Half-even rounding is symmetric about an even centre. */
  lemma {:induction false} RoundEvenSymmetric(y: real, whole: int)
    requires whole % 2 == 0
    ensures RoundEven(whole as real - y) == whole - RoundEven(y)
  {
    var n := y.Floor;
    if y == n as real {
      assert (whole as real - y).Floor == whole - n;
    } else {
      assert (whole as real - y).Floor == whole - n - 1;
    }
  }

  lemma {:induction false} TenthsSurviveRound8(x: real)
    ensures Round8(Round1(x)) == Round1(x)
  {
    var n := RoundEven(x * 10.0);
    assert (n as real / 10.0) * 100000000.0 == (n * 10000000) as real;
    assert RoundEven((n * 10000000) as real) == n * 10000000;
  }

  // ---------------------------------------------------------------- weighted mean

  datatype Part = Part(value: Option<real>, weight: real)

  predicate Present(p: Part) { p.value.Some? && p.weight > 0.0 }

  function WeightOf(parts: seq<Part>, n: nat): real
    requires n <= |parts|
  {
    if n == 0 then 0.0 else WeightOf(parts, n - 1) + if Present(parts[n - 1]) then parts[n - 1].weight else 0.0
  }

  function TotalOf(parts: seq<Part>, n: nat): real
    requires n <= |parts|
  {
    if n == 0 then 0.0
    else TotalOf(parts, n - 1) + if Present(parts[n - 1]) then parts[n - 1].value.value * parts[n - 1].weight else 0.0
  }

  function WeightedMean(parts: seq<Part>): Option<real> {
    if WeightOf(parts, |parts|) <= 0.0 then None else Some(TotalOf(parts, |parts|) / WeightOf(parts, |parts|))
  }

  method Weighted(parts: seq<Part>) returns (mean: Option<real>)
    ensures mean == WeightedMean(parts)
  {
    var totalWeight, total := 0.0, 0.0;
    for n := 0 to |parts|
      invariant totalWeight == WeightOf(parts, n) && total == TotalOf(parts, n)
    {
      if parts[n].value == None || parts[n].weight <= 0.0 {
        continue;
      }
      total := total + parts[n].value.value * parts[n].weight;
      totalWeight := totalWeight + parts[n].weight;
    }
    if totalWeight <= 0.0 {
      return None;
    }
    return Some(total / totalWeight);
  }

  lemma {:induction false} ProductNonNegative(a: real, b: real)
    requires a >= 0.0 && b >= 0.0
    ensures a * b >= 0.0
  {}

  lemma {:induction false} AddScaled(weight: real, total: real, v: real, w: real, lo: real, hi: real)
    requires lo * weight <= total <= hi * weight && lo <= v <= hi && w > 0.0
    ensures lo * (weight + w) <= total + v * w <= hi * (weight + w)
  {
    ProductNonNegative(v - lo, w);
    ProductNonNegative(hi - v, w);
  }

  lemma {:induction false} TotalBetween(parts: seq<Part>, n: nat, lo: real, hi: real)
    requires n <= |parts| && forall p :: p in parts && Present(p) ==> lo <= p.value.value <= hi
    ensures WeightOf(parts, n) >= 0.0 && lo * WeightOf(parts, n) <= TotalOf(parts, n) <= hi * WeightOf(parts, n)
    ensures WeightOf(parts, n) > 0.0 <==> exists k :: 0 <= k < n && Present(parts[k])
  {
    if n > 0 {
      TotalBetween(parts, n - 1, lo, hi);
      var p := parts[n - 1];
      if Present(p) {
        assert p in parts;
        AddScaled(WeightOf(parts, n - 1), TotalOf(parts, n - 1), p.value.value, p.weight, lo, hi);
      }
    }
  }

  /** Absent components are dropped and the rest renormalised: the mean exists exactly when something is
      present, and lies between the present values. */
  lemma {:induction false} MeanBetween(parts: seq<Part>, lo: real, hi: real)
    requires forall p :: p in parts && Present(p) ==> lo <= p.value.value <= hi
    ensures WeightedMean(parts).Some? <==> exists p :: p in parts && Present(p)
    ensures WeightedMean(parts).Some? ==> lo <= WeightedMean(parts).value <= hi
  {
    TotalBetween(parts, |parts|, lo, hi);
    if p :| p in parts && Present(p) {
      var k :| 0 <= k < |parts| && parts[k] == p;
    }
    if WeightedMean(parts).Some? {
      Quotient(TotalOf(parts, |parts|), WeightOf(parts, |parts|), lo, hi);
    }
  }

  lemma {:induction false} Quotient(total: real, weight: real, lo: real, hi: real)
    requires weight > 0.0 && lo * weight <= total <= hi * weight
    ensures lo <= total / weight <= hi
  {
    var q := total / weight;
    assert q * weight == total;
    SignOfFactor(q - lo, weight);
    SignOfFactor(hi - q, weight);
  }

  lemma {:induction false} SignOfFactor(x: real, w: real)
    requires w > 0.0
    ensures x * w >= 0.0 ==> x >= 0.0
  {
    if x < 0.0 { assert x * w < 0.0; }
  }

  // ---------------------------------------------------------------- series access

  predicate Carries(series: seq<Sample>, i: nat, reading: Reading) {
    i < |series| && Read(series[i], reading).Some?
  }

  function Gap(series: seq<Sample>, i: nat, target: int): int
    requires i < |series|
  {
    if series[i].time >= target then series[i].time - target else target - series[i].time
  }

  /** The earliest closest carrier among the first `n` samples. */
  function NearestOf(series: seq<Sample>, n: nat, target: int, reading: Reading): (best: Option<nat>)
    requires n <= |series|
    ensures best.Some? ==> best.value < n && Carries(series, best.value, reading)
  {
    if n == 0 then None
    else
      var best := NearestOf(series, n - 1, target, reading);
      if Carries(series, n - 1, reading)
        && (best == None || Gap(series, n - 1, target) < Gap(series, best.value, target))
      then Some(n - 1) else best
  }

  function PickAt(series: seq<Sample>, target: int, tolerance: real, reading: Reading): Option<nat> {
    var best := NearestOf(series, |series|, target, reading);
    if best == None || Gap(series, best.value, target) as real > tolerance then None else best
  }

  method PickAtLoop(series: seq<Sample>, target: int, tolerance: real, reading: Reading) returns (picked: Option<nat>)
    ensures picked == PickAt(series, target, tolerance, reading)
  {
    var best: Option<nat> := None;
    var bestGap := 0;
    for n := 0 to |series|
      invariant best == NearestOf(series, n, target, reading)
      invariant best.Some? ==> bestGap == Gap(series, best.value, target)
    {
      if Read(series[n], reading) == None {
        continue;
      }
      var gap := if series[n].time >= target then series[n].time - target else target - series[n].time;
      if best == None || gap < bestGap {
        best, bestGap := Some(n), gap;
      }
    }
    if best == None || bestGap as real > tolerance {
      return None;
    }
    return best;
  }

  lemma {:induction false} NearestMeaning(series: seq<Sample>, n: nat, target: int, reading: Reading)
    requires n <= |series|
    ensures var best := NearestOf(series, n, target, reading);
            && (best == None <==> forall j :: 0 <= j < n ==> !Carries(series, j, reading))
            && (best.Some? ==>
                  && Carries(series, best.value, reading)
                  && (forall j :: 0 <= j < n && Carries(series, j, reading) ==>
                      Gap(series, best.value, target) <= Gap(series, j, target))
                  && (forall j :: 0 <= j < best.value && Carries(series, j, reading) ==>
                      Gap(series, best.value, target) < Gap(series, j, target)))
  {
    if n > 0 { NearestMeaning(series, n - 1, target, reading); }
  }

  /** A sample is picked exactly when it carries the metric, is within tolerance, and is the closest, the
      earlier one on a tie; nothing within tolerance means no answer. */
  lemma {:induction false} PickMeaning(series: seq<Sample>, target: int, tolerance: real, reading: Reading, i: nat)
    ensures PickAt(series, target, tolerance, reading) == Some(i)
            <==> && Carries(series, i, reading) && Gap(series, i, target) as real <= tolerance
                 && (forall j :: 0 <= j < |series| && Carries(series, j, reading) ==>
                     Gap(series, i, target) <= Gap(series, j, target))
                 && (forall j :: 0 <= j < i && Carries(series, j, reading) ==>
                     Gap(series, i, target) < Gap(series, j, target))
    ensures PickAt(series, target, tolerance, reading) == None
            <==> forall j :: 0 <= j < |series| && Carries(series, j, reading) ==>
              Gap(series, j, target) as real > tolerance
  {
    NearestMeaning(series, |series|, target, reading);
  }

  /** The last carrier among the first `n` samples. */
  function LatestOf(series: seq<Sample>, n: nat, reading: Reading): (latest: Option<nat>)
    requires n <= |series|
    ensures latest.Some? ==> latest.value < n && Carries(series, latest.value, reading)
  {
    if n == 0 then None else if Carries(series, n - 1, reading) then Some(n - 1) else LatestOf(series, n - 1, reading)
  }

  function Tolerance(window: nat): real { Max(window as real * 0.5, (SNAPSHOT_INTERVAL * 2) as real) }

  /** Half the window, and ten minutes at least. */
  lemma {:induction false} ToleranceMeaning(window: nat)
    ensures Tolerance(window) == if window <= 1200 then 600.0 else window as real / 2.0
  {}

  function PctDelta(series: seq<Sample>, reading: Reading, window: nat): Option<real> {
    var newest := LatestOf(series, |series|, reading);
    if newest == None then None
    else
      var past := PickAt(series, series[newest.value].time - window, Tolerance(window), reading);
      if past == None || past == newest then None
      else
        var current, before := Read(series[newest.value], reading).value, Read(series[past.value], reading).value;
        if before == 0.0 then None else Some((current - before) / Abs(before) * 100.0)
  }

  /** A table that does not reach back to the window's start, within tolerance, answers no delta for it. */
  lemma {:induction false} ShortTableAnswersNothing(series: seq<Sample>, reading: Reading, window: nat)
    requires forall i, j :: 0 <= i < |series| && 0 <= j < |series| ==>
             (series[i].time - series[j].time) as real < window as real - Tolerance(window)
    ensures PctDelta(series, reading, window) == None
  {
    var newest := LatestOf(series, |series|, reading);
    if newest.Some? {
      var target := series[newest.value].time - window;
      PickMeaning(series, target, Tolerance(window), reading, 0);
      forall j | 0 <= j < |series| && Carries(series, j, reading)
        ensures Gap(series, j, target) as real > Tolerance(window) {
        assert (series[newest.value].time - series[j].time) as real < window as real - Tolerance(window);
      }
    }
  }

  /** `newest` is the last carrier and `past` a different one, picked at the window's start. */
  ghost predicate Ends(series: seq<Sample>, reading: Reading, window: nat, newest: nat, past: nat) {
    && Carries(series, newest, reading) && (forall j :: newest < j < |series| ==> !Carries(series, j, reading))
    && Carries(series, past, reading) && past != newest
    && PickAt(series, series[newest].time - window, Tolerance(window), reading) == Some(past)
  }

  /** A delta is the percent move between the window's ends, so its sign is the move's. */
  lemma {:induction false} DeltaMeaning(series: seq<Sample>, reading: Reading, window: nat)
    returns (newest: nat, past: nat)
    requires PctDelta(series, reading, window).Some?
    ensures Ends(series, reading, window, newest, past)
    ensures MovesBy(Read(series[past], reading).value, Read(series[newest], reading).value,
                    PctDelta(series, reading, window).value)
  {
    LatestIsLast(series, |series|, reading);
    newest := LatestOf(series, |series|, reading).value;
    past := PickAt(series, series[newest].time - window, Tolerance(window), reading).value;
    PercentMoves(Read(series[past], reading).value, Read(series[newest], reading).value);
  }

  /** `percent` of the size of `before` carries it to `after`. */
  predicate MovesBy(before: real, after: real, percent: real) {
    before != 0.0 && percent * Abs(before) == (after - before) * 100.0 && (percent > 0.0 <==> after > before)
  }

  lemma {:induction false} PercentMoves(before: real, after: real)
    requires before != 0.0
    ensures MovesBy(before, after, (after - before) / Abs(before) * 100.0)
  {
    var size, ratio := Abs(before), (after - before) / Abs(before);
    assert ratio * size == after - before;
    SignOfFactor(-ratio, size);
    if ratio > 0.0 { assert ratio * size > 0.0; }
  }

  lemma {:induction false} LatestIsLast(series: seq<Sample>, n: nat, reading: Reading)
    requires n <= |series|
    ensures var latest := LatestOf(series, n, reading);
            forall j :: (if latest.Some? then latest.value + 1 else 0) <= j < n ==> !Carries(series, j, reading)
  {
    if n > 0 { LatestIsLast(series, n - 1, reading); }
  }

  /** The ends of a delta in the samples' own readings: the newest sample that carries the metric, and the one nearest
      the window's start, at most half the window away or ten minutes in a short one. */
  lemma {:induction false} DeltaOnSamples(series: seq<Sample>, window: nat) returns (newest: nat, past: nat)
    requires PctDelta(series, OpenInterest, window).Some?
    ensures newest < |series| && series[newest].openInterest.Some?
            && forall j :: newest < j < |series| ==> series[j].openInterest.None?
    ensures past < |series| && past != newest && series[past].openInterest.Some?
    ensures var start := series[newest].time - window;
            && Abs((series[past].time - start) as real) <= (if window <= 1200 then 600.0 else window as real / 2.0)
            && forall j :: 0 <= j < |series| && series[j].openInterest.Some? ==>
                 Abs((series[past].time - start) as real) <= Abs((series[j].time - start) as real)
    ensures MovesBy(series[past].openInterest.value, series[newest].openInterest.value,
                    PctDelta(series, OpenInterest, window).value)
  {
    newest, past := DeltaMeaning(series, OpenInterest, window);
    var start := series[newest].time - window;
    PickMeaning(series, start, Tolerance(window), OpenInterest, past);
    forall j | 0 <= j < |series| && series[j].openInterest.Some?
      ensures Gap(series, j, start) as real == Abs((series[j].time - start) as real)
      ensures Carries(series, j, OpenInterest) {}
    assert forall j :: newest < j < |series| ==> !Carries(series, j, OpenInterest);
  }

  lemma {:induction false} PriceReads(p: Sample)
    ensures Read(p, Price) == p.price && Read(p, OpenInterest) == p.openInterest
  {}

  datatype Deltas = Deltas(m5: Option<real>, m15: Option<real>, h1: Option<real>, h24: Option<real>)

  function DeltaMap(series: seq<Sample>, reading: Reading): Deltas {
    Deltas(PctDelta(series, reading, 300), PctDelta(series, reading, 900), PctDelta(series, reading, 3600),
           PctDelta(series, reading, 86400))
  }

  function ReferenceDelta(d: Deltas): Option<real> {
    if d.h1.Some? then d.h1 else if d.m15.Some? then d.m15 else d.m5
  }

  /** The hour when it is known, else the quarter hour, else five minutes. */
  lemma {:induction false} ReferenceMeaning(series: seq<Sample>, reading: Reading)
    ensures var hour, quarter, five := PctDelta(series, reading, 60 * 60), PctDelta(series, reading, 15 * 60),
              PctDelta(series, reading, 5 * 60);
            var reference := ReferenceDelta(DeltaMap(series, reading));
            && (hour.Some? ==> reference == hour)
            && (hour == None && quarter.Some? ==> reference == quarter)
            && (hour == None && quarter == None ==> reference == five)
  {
    hide PctDelta;
  }

  // ---------------------------------------------------------------- scores

  function Clamp(x: real, lo: real, hi: real): real { Max(lo, Min(hi, x)) }

  function Scale100(value: real, bound: real): real {
    if bound <= 0.0 then 50.0 else Clamp((value / bound + 1.0) / 2.0 * 100.0, 0.0, 100.0)
  }

  function Ratio100(ratio: Option<real>, ln: real -> real): Option<real> {
    if ratio == None || ratio.value <= 0.0 then None else Some(Scale100(ln(ratio.value), LOG_RATIO_BOUND))
  }

  function BuyerAggression(p: Sample): Option<real> {
    if p.takerBuy == None || p.takerSell == None || p.takerBuy.value + p.takerSell.value <= 0.0 then None
    else Some(Clamp(p.takerBuy.value / (p.takerBuy.value + p.takerSell.value), 0.0, 1.0))
  }

  datatype Expansion = BullishExpansion | ShortCovering | Neutral | LongCapitulation | BearishExpansion

  function ClassifyExpansion(price: Option<real>, oi: Option<real>): Expansion {
    if price == None || oi == None || Abs(price.value) < EXPANSION_EPS || Abs(oi.value) < EXPANSION_EPS then Neutral
    else if price.value > 0.0 then (if oi.value > 0.0 then BullishExpansion else ShortCovering)
    else if oi.value > 0.0 then BearishExpansion else LongCapitulation
  }

  /** Both legs must move by the threshold; then the quadrant is theirs: interest rising with the price is bullish, with
      a falling one bearish, and falling interest names who leaves. */
  lemma {:induction false} ExpansionQuadrants(price: real, oi: real)
    ensures var e := ClassifyExpansion(Some(price), Some(oi));
            && (e == BullishExpansion <==> price >= EXPANSION_EPS && oi >= EXPANSION_EPS)
            && (e == ShortCovering <==> price >= EXPANSION_EPS && oi <= -EXPANSION_EPS)
            && (e == BearishExpansion <==> price <= -EXPANSION_EPS && oi >= EXPANSION_EPS)
            && (e == LongCapitulation <==> price <= -EXPANSION_EPS && oi <= -EXPANSION_EPS)
    ensures ClassifyExpansion(None, Some(oi)) == ClassifyExpansion(Some(price), None) == Neutral
  {}

  function ExpansionMomentum(e: Expansion): real {
    match e
    case BullishExpansion => 100.0
    case ShortCovering => 60.0
    case Neutral => 50.0
    case LongCapitulation => 40.0
    case BearishExpansion => 0.0
  }

  function TopTrader(p: Sample, ln: real -> real): Option<real> {
    var accounts, positions := Ratio100(p.topAccounts, ln), Ratio100(p.topPositions, ln);
    if accounts == None then positions else if positions == None then accounts
      else Some((accounts.value + positions.value) / 2.0)
  }

  function Scaled(value: Option<real>, bound: real): Option<real> {
    if value == None then None else Some(Scale100(value.value, bound))
  }

  function CrowdingScore(p: Sample, ln: real -> real): Option<real> {
    WeightedMean([Part(Scaled(p.funding, FUNDING_BOUND), 0.40), Part(Ratio100(p.longShort, ln), 0.30),
                  Part(TopTrader(p, ln), 0.30)])
  }

  function MomentumScore(e: Expansion, evidence: bool, aggression: Option<real>, funding: Option<real>,
                         premium: Option<real>): Option<real> {
    WeightedMean([
      Part(if evidence then Some(ExpansionMomentum(e)) else None, 0.40),
      Part(if aggression == None then None else Some(aggression.value * 100.0), 0.35),
      Part(Scaled(funding, FUNDING_BOUND), 0.15),
      Part(Scaled(premium, PREMIUM_BOUND), 0.10)])
  }

  datatype Squeeze = Squeeze(long: real, short: real)

  function Pressure(crowded: real, fuel: real, against: real): real { crowded * (0.4 + 0.3 * fuel + 0.3 * against) }

  function SqueezeScores(crowding: Option<real>, oiDelta: Option<real>, acceleration: Option<real>): Squeeze {
    if crowding == None then Squeeze(0.0, 0.0)
    else
      var crowdedLong := Clamp(crowding.value, 0.0, 100.0);
      var fuel := if oiDelta == None then 0.0 else Clamp(oiDelta.value, 0.0, 5.0) / 5.0;
      var accel := if acceleration == None then 0.0 else acceleration.value;
      Squeeze(Round1(Pressure(crowdedLong, fuel, Clamp(-accel, 0.0, 2.0) / 2.0)),
              Round1(Pressure(100.0 - crowdedLong, fuel, Clamp(accel, 0.0, 2.0) / 2.0)))
  }

  function PriceAcceleration(d: Deltas): Option<real> {
    if d.m15 == None then None else if d.h1 == None then d.m15 else Some(d.m15.value - d.h1.value / 4.0)
  }

  ghost predicate Percent(x: Option<real>) { x.Some? ==> 0.0 <= x.value <= 100.0 }

  lemma {:induction false} CrowdingInRange(p: Sample, ln: real -> real)
    ensures Percent(CrowdingScore(p, ln))
  {
    MeanBetween([Part(Scaled(p.funding, FUNDING_BOUND), 0.40), Part(Ratio100(p.longShort, ln), 0.30),
                 Part(TopTrader(p, ln), 0.30)], 0.0, 100.0);
  }

  lemma {:induction false} MomentumInRange(e: Expansion, evidence: bool, p: Sample)
    ensures Percent(MomentumScore(e, evidence, BuyerAggression(p), p.funding, p.premium))
  {
    var aggression := BuyerAggression(p);
    MeanBetween([
      Part(if evidence then Some(ExpansionMomentum(e)) else None, 0.40),
      Part(if aggression == None then None else Some(aggression.value * 100.0), 0.35),
      Part(Scaled(p.funding, FUNDING_BOUND), 0.15),
      Part(Scaled(p.premium, PREMIUM_BOUND), 0.10)], 0.0, 100.0);
  }

  /** A reading scaled over its bound: the middle at zero, the ends at the bound and past it, straight between. */
  lemma {:induction false} ScaleMeaning(value: real, bound: real)
    requires bound > 0.0
    ensures var score := Scale100(value, bound);
            && (value >= bound ==> score == 100.0) && (value <= -bound ==> score == 0.0)
            && (-bound <= value <= bound ==> (score - 50.0) * bound == 50.0 * value)
            && (score > 50.0 <==> value > 0.0) && (score < 50.0 <==> value < 0.0)
  {
    var q := value / bound;
    assert q * bound == value;
    QuotientSide(q, bound, 1.0);
    QuotientSide(q, bound, 0.0);
    QuotientSide(q, bound, -1.0);
    ClampedScale(q);
    hide Clamp;
    if -bound <= value <= bound { FiftyTimes(Scale100(value, bound), q, bound, value); }
  }

  lemma {:induction false} ClampedScale(q: real)
    ensures var score := Clamp((q + 1.0) / 2.0 * 100.0, 0.0, 100.0);
            && (q >= 1.0 ==> score == 100.0) && (q <= -1.0 ==> score == 0.0)
            && (-1.0 <= q <= 1.0 ==> score - 50.0 == 50.0 * q)
            && (score > 50.0 <==> q > 0.0) && (score < 50.0 <==> q < 0.0)
  {}

  lemma {:induction false} FiftyTimes(score: real, q: real, bound: real, value: real)
    requires q * bound == value && score - 50.0 == 50.0 * q
    ensures (score - 50.0) * bound == 50.0 * value
  {
    assert (50.0 * q) * bound == 50.0 * (q * bound);
  }

  lemma {:induction false} QuotientSide(q: real, bound: real, at: real)
    requires bound > 0.0
    ensures q > at <==> q * bound > at * bound
    ensures q < at <==> q * bound < at * bound
  {
    SignOfFactor(q - at, bound);
    assert (q - at) * bound == q * bound - at * bound;
    if q > at { assert (q - at) * bound > 0.0; }
  }

  ghost predicate Leans(x: Option<real>, long: bool) {
    x.Some? ==> if long then 50.0 <= x.value <= 100.0 else 0.0 <= x.value <= 50.0
  }

  /** A logarithm that is positive above one and negative below. */
  ghost predicate LogSign(ln: real -> real) {
    forall x: real :: (x >= 1.0 ==> ln(x) >= 0.0) && (0.0 < x <= 1.0 ==> ln(x) <= 0.0)
  }

  ghost predicate RatioLeans(ratio: Option<real>, long: bool) {
    ratio.Some? ==> if long then ratio.value >= 1.0 else ratio.value <= 1.0
  }

  ghost predicate Positive(ratio: Option<real>) { ratio.Some? && ratio.value > 0.0 }

  lemma {:induction false} RatioSide(ratio: Option<real>, ln: real -> real, long: bool)
    requires LogSign(ln) && RatioLeans(ratio, long)
    ensures Leans(Ratio100(ratio, ln), long)
  {
    if Positive(ratio) { ScaleMeaning(ln(ratio.value), LOG_RATIO_BOUND); }
  }

  /** Longs crowded read at or above the middle, shorts at or below: whatever of funding and the three account ratios is
      known, if none of it is on the other side. */
  lemma {:induction false} CrowdingSide(p: Sample, ln: real -> real, long: bool)
    requires LogSign(ln) && (p.funding.Some? ==> if long then p.funding.value >= 0.0 else p.funding.value <= 0.0)
    requires RatioLeans(p.longShort, long) && RatioLeans(p.topAccounts, long) && RatioLeans(p.topPositions, long)
    ensures Leans(CrowdingScore(p, ln), long)
  {
    if p.funding.Some? { ScaleMeaning(p.funding.value, FUNDING_BOUND); }
    RatioSide(p.longShort, ln, long);
    RatioSide(p.topAccounts, ln, long);
    RatioSide(p.topPositions, ln, long);
    hide Scale100, Ratio100, WeightedMean, LogSign, RatioLeans;
    assert Leans(TopTrader(p, ln), long);
    hide TopTrader;
    var parts := [Part(Scaled(p.funding, FUNDING_BOUND), 0.40), Part(Ratio100(p.longShort, ln), 0.30),
                  Part(TopTrader(p, ln), 0.30)];
    assert forall q :: q in parts && Present(q) ==> Leans(q.value, long);
    MeanBetween(parts, if long then 50.0 else 0.0, if long then 100.0 else 50.0);
  }

  /** Crowding is known exactly when the funding or one of the three ratios is. */
  lemma {:induction false} CrowdingKnownIff(p: Sample, ln: real -> real)
    ensures CrowdingScore(p, ln).Some?
            <==> p.funding.Some? || Positive(p.longShort) || Positive(p.topAccounts) || Positive(p.topPositions)
  {
    CrowdingInRange(p, ln);
    var parts := [Part(Scaled(p.funding, FUNDING_BOUND), 0.40), Part(Ratio100(p.longShort, ln), 0.30),
                  Part(TopTrader(p, ln), 0.30)];
    MeanBetween(parts, 0.0, 100.0);
    hide WeightedMean, Scale100;
    assert parts[0] in parts && parts[1] in parts && parts[2] in parts;
    assert forall q :: q in parts ==> q == parts[0] || q == parts[1] || q == parts[2];
  }

  /** With all of them known: four tenths funding, three the account ratio, three the mean of the top traders'. */
  lemma {:induction false} CrowdingOfAll(p: Sample, ln: real -> real)
    requires p.funding.Some? && Positive(p.longShort) && Positive(p.topAccounts) && Positive(p.topPositions)
    ensures CrowdingScore(p, ln)
            == Some(0.4 * Scale100(p.funding.value, 0.0005) + 0.3 * Scale100(ln(p.longShort.value), 0.7)
                    + 0.15 * Scale100(ln(p.topAccounts.value), 0.7) + 0.15 * Scale100(ln(p.topPositions.value), 0.7))
  {
    hide Scale100;
    var parts := [Part(Scaled(p.funding, FUNDING_BOUND), 0.40), Part(Ratio100(p.longShort, ln), 0.30),
                  Part(TopTrader(p, ln), 0.30)];
    assert WeightOf(parts, 0) == 0.0 && WeightOf(parts, 1) == 0.4;
    assert WeightOf(parts, 2) == 0.7 && WeightOf(parts, 3) == 1.0;
    assert TotalOf(parts, 1) == 0.4 * parts[0].value.value;
    assert TotalOf(parts, 2) == TotalOf(parts, 1) + 0.3 * parts[1].value.value;
    assert TotalOf(parts, 3) == TotalOf(parts, 2) + 0.3 * parts[2].value.value;
  }

  /** Momentum is known exactly when the price and interest moves, the taker flow, the funding or the premium is; with
      all of them it is their mean at weights 40, 35, 15 and 10. */
  lemma {:induction false} MomentumOfAll(e: Expansion, flow: real, funding: real, premium: real)
    ensures MomentumScore(e, true, Some(flow), Some(funding), Some(premium))
            == Some(0.4 * ExpansionMomentum(e) + 35.0 * flow + 0.15 * Scale100(funding, 0.0005)
                    + 0.1 * Scale100(premium, 0.001))
  {
    hide Scale100, ExpansionMomentum;
    var parts := [Part(Some(ExpansionMomentum(e)), 0.40), Part(Some(flow * 100.0), 0.35),
                  Part(Scaled(Some(funding), FUNDING_BOUND), 0.15), Part(Scaled(Some(premium), PREMIUM_BOUND), 0.10)];
    assert WeightOf(parts, 0) == 0.0 && WeightOf(parts, 1) == 0.4 && WeightOf(parts, 2) == 0.75;
    assert WeightOf(parts, 3) == 0.9 && WeightOf(parts, 4) == 1.0;
    assert TotalOf(parts, 1) == 0.4 * ExpansionMomentum(e);
    assert TotalOf(parts, 2) == TotalOf(parts, 1) + 35.0 * flow;
    assert TotalOf(parts, 3) == TotalOf(parts, 2) + 0.15 * parts[2].value.value;
    assert TotalOf(parts, 4) == TotalOf(parts, 3) + 0.1 * parts[3].value.value;
  }

  lemma {:induction false} MomentumKnownIff(e: Expansion, evidence: bool, p: Sample)
    ensures MomentumScore(e, evidence, BuyerAggression(p), p.funding, p.premium).Some?
            <==> evidence || BuyerAggression(p).Some? || p.funding.Some? || p.premium.Some?
  {
    var aggression := BuyerAggression(p);
    var parts := [
      Part(if evidence then Some(ExpansionMomentum(e)) else None, 0.40),
      Part(if aggression == None then None else Some(aggression.value * 100.0), 0.35),
      Part(Scaled(p.funding, FUNDING_BOUND), 0.15),
      Part(Scaled(p.premium, PREMIUM_BOUND), 0.10)];
    MeanBetween(parts, 0.0, 100.0);
    hide WeightedMean, Scale100, BuyerAggression, ExpansionMomentum;
    assert parts[0] in parts && parts[1] in parts && parts[2] in parts && parts[3] in parts;
    assert forall q :: q in parts ==> q == parts[0] || q == parts[1] || q == parts[2] || q == parts[3];
  }

  /** The buyers' share of the taker volume, known exactly when both sides are and something traded. */
  lemma {:induction false} AggressionMeaning(p: Sample)
    requires p.takerBuy.Some? && p.takerSell.Some? && p.takerBuy.value >= 0.0 && p.takerSell.value >= 0.0
    ensures var buy, sell, share := p.takerBuy.value, p.takerSell.value, BuyerAggression(p);
            && (share.Some? <==> buy + sell > 0.0)
            && (share.Some? ==> share.value * (buy + sell) == buy)
  {
    var buy, volume := p.takerBuy.value, p.takerBuy.value + p.takerSell.value;
    if volume > 0.0 {
      var share := buy / volume;
      assert share * volume == buy;
      QuotientSide(share, volume, 0.0);
      QuotientSide(share, volume, 1.0);
    }
  }

  /** How much faster the last quarter hour moved than the hour's own pace. */
  lemma {:induction false} AccelerationMeaning(d: Deltas)
    ensures PriceAcceleration(d).Some? <==> d.m15.Some?
    ensures d.m15.Some? && d.h1.Some? ==> 4.0 * PriceAcceleration(d).value == 4.0 * d.m15.value - d.h1.value
    ensures d.m15.Some? && d.h1 == None ==> PriceAcceleration(d) == d.m15
  {}

  /** A crowd's share under pressure: four tenths standing still, six hundredths for each percent of interest added and
      fifteen for each percent of speed against it. */
  function Pressed(share: real, oi: real, against: real): real { share * (0.4 + 0.06 * oi + 0.15 * against) }

  lemma {:induction false} PressureOnScales(share: real, oi: real, against: real)
    ensures Pressure(share, oi / 5.0, against / 2.0) == Pressed(share, oi, against)
  {
    assert 0.4 + 0.3 * (oi / 5.0) + 0.3 * (against / 2.0) == 0.4 + 0.06 * oi + 0.15 * against;
  }

  /** Within the scales each side is its share under pressure: a rise is against shorts, a fall against longs. */
  lemma {:induction false} SqueezeOnScales(crowding: real, oi: real, move: real)
    requires 0.0 <= crowding <= 100.0 && 0.0 <= oi <= 5.0 && 0.0 <= move <= 2.0
    ensures SqueezeScores(Some(crowding), Some(oi), Some(move))
            == Squeeze(Round1(Pressed(crowding, oi, 0.0)), Round1(Pressed(100.0 - crowding, oi, move)))
    ensures SqueezeScores(Some(crowding), Some(oi), Some(-move))
            == Squeeze(Round1(Pressed(crowding, oi, move)), Round1(Pressed(100.0 - crowding, oi, 0.0)))
  {
    hide Round1, Pressure, Pressed;
    PressureOnScales(crowding, oi, 0.0);
    PressureOnScales(crowding, oi, move);
    PressureOnScales(100.0 - crowding, oi, 0.0);
    PressureOnScales(100.0 - crowding, oi, move);
    assert Clamp(crowding, 0.0, 100.0) == crowding && Clamp(oi, 0.0, 5.0) == oi;
    assert Clamp(move, 0.0, 2.0) == move && Clamp(-move, 0.0, 2.0) == 0.0 && -(-move) == move;
  }

  /** Past the scales a reading counts as at their end, and an unknown one as standing still. */
  lemma {:induction false} SqueezeSaturates(crowding: Option<real>, oi: Option<real>, move: Option<real>)
    ensures crowding == None ==> SqueezeScores(crowding, oi, move) == Squeeze(0.0, 0.0)
    ensures SqueezeScores(crowding, None, move) == SqueezeScores(crowding, Some(0.0), move)
    ensures SqueezeScores(crowding, oi, None) == SqueezeScores(crowding, oi, Some(0.0))
    ensures oi.Some? && oi.value >= 5.0 ==>
              SqueezeScores(crowding, oi, move) == SqueezeScores(crowding, Some(5.0), move)
    ensures oi.Some? && oi.value <= 0.0 ==> SqueezeScores(crowding, oi, move) == SqueezeScores(crowding, None, move)
    ensures move.Some? && move.value >= 2.0 ==>
              SqueezeScores(crowding, oi, move) == SqueezeScores(crowding, oi, Some(2.0))
    ensures move.Some? && move.value <= -2.0 ==>
              SqueezeScores(crowding, oi, move) == SqueezeScores(crowding, oi, Some(-2.0))
  {
    hide Round1, Pressure;
  }

  lemma {:induction false} PressureAtMostShare(crowded: real, fuel: real, against: real)
    requires crowded >= 0.0 && 0.0 <= fuel <= 1.0 && 0.0 <= against <= 1.0
    ensures 0.0 <= Pressure(crowded, fuel, against) <= crowded
  {
    var modifier := 0.4 + 0.3 * fuel + 0.3 * against;
    ProductNonNegative(crowded, modifier);
    ProductNonNegative(crowded, 1.0 - modifier);
  }

  /** The pair never sums past 100, even after each side is rounded on its own. */
  lemma {:induction false} SqueezePairWithinHundred(crowding: Option<real>, oiDelta: Option<real>,
                                                    acceleration: Option<real>)
    ensures var s := SqueezeScores(crowding, oiDelta, acceleration);
            0.0 <= s.long && 0.0 <= s.short && s.long + s.short <= 100.0
  {
    if crowding.Some? {
      var share := Clamp(crowding.value, 0.0, 100.0);
      var fuel := if oiDelta == None then 0.0 else Clamp(oiDelta.value, 0.0, 5.0) / 5.0;
      var accel := if acceleration == None then 0.0 else acceleration.value;
      var againstLongs, againstShorts := Clamp(-accel, 0.0, 2.0) / 2.0, Clamp(accel, 0.0, 2.0) / 2.0;
      PressureAtMostShare(share, fuel, againstLongs);
      PressureAtMostShare(100.0 - share, fuel, againstShorts);
      RoundedShares(Pressure(share, fuel, againstLongs), Pressure(100.0 - share, fuel, againstShorts), share);
    }
  }

  /** Swapping the crowd and the move swaps the pair: the two sides are judged by one rule. */
  lemma {:induction false} SqueezeMirrors(crowding: real, oiDelta: Option<real>, acceleration: real)
    requires 0.0 <= crowding <= 100.0
    ensures var s, mirrored := SqueezeScores(Some(crowding), oiDelta, Some(acceleration)),
            SqueezeScores(Some(100.0 - crowding), oiDelta, Some(-acceleration));
            mirrored == Squeeze(s.short, s.long)
  {}

  lemma {:induction false} PressureGrows(crowded: real, fuel: real, against: real, fuel': real, against': real)
    requires crowded >= 0.0 && fuel <= fuel' && against <= against'
    ensures Pressure(crowded, fuel, against) <= Pressure(crowded, fuel', against')
  {
    ProductNonNegative(crowded, 0.3 * (fuel' - fuel) + 0.3 * (against' - against));
  }

  lemma {:induction false} Round1Monotone(x: real, y: real)
    requires x <= y
    ensures Round1(x) <= Round1(y)
  {
    RoundEvenMonotone(x * 10.0, y * 10.0);
  }

  /** Price accelerating up and open interest rising never ease the shorts, and a rise alone never presses the
      longs: at or above zero acceleration the long side reads as if price stood still. */
  lemma {:induction false} SqueezeFollowsTheMove(crowding: real, oi: real, oi': real, move: real, move': real)
    requires oi <= oi' && move <= move'
    ensures SqueezeScores(Some(crowding), Some(oi), Some(move)).short
            <= SqueezeScores(Some(crowding), Some(oi'), Some(move')).short
    ensures move >= 0.0 ==>
            SqueezeScores(Some(crowding), Some(oi), Some(move)).long
            == SqueezeScores(Some(crowding), Some(oi), None).long
  {
    var share := 100.0 - Clamp(crowding, 0.0, 100.0);
    var fuel, fuel' := Clamp(oi, 0.0, 5.0) / 5.0, Clamp(oi', 0.0, 5.0) / 5.0;
    var against, against' := Clamp(move, 0.0, 2.0) / 2.0, Clamp(move', 0.0, 2.0) / 2.0;
    PressureGrows(share, fuel, against, fuel', against');
    Round1Monotone(Pressure(share, fuel, against), Pressure(share, fuel', against'));
  }

  lemma {:induction false} RoundedShares(long: real, short: real, share: real)
    requires 0.0 <= long <= share && 0.0 <= short <= 100.0 - share
    ensures 0.0 <= Round1(long) && 0.0 <= Round1(short) && Round1(long) + Round1(short) <= 100.0
  {
    RoundEvenMonotone(0.0, long * 10.0);
    RoundEvenMonotone(0.0, short * 10.0);
    RoundEvenMonotone(long * 10.0, share * 10.0);
    RoundEvenMonotone(short * 10.0, 1000.0 - share * 10.0);
    RoundEvenSymmetric(share * 10.0, 1000);
  }

  // ---------------------------------------------------------------- the card

  datatype Card = Card(momentum: Option<real>, crowding: Option<real>, squeeze: Squeeze, openInterest: Option<real>,
                       funding: Option<real>, aggression: Option<real>, sampleCount: nat)

  function Rounded(x: Option<real>): Option<real> { if x == None then None else Some(Round1(x.value)) }

  /** The read model of a series; `None` is the router's 404. */
  function Derive(series: seq<Sample>, ln: real -> real): Option<Card> {
    if |series| == 0 then None
    else
      var latest := series[|series| - 1];
      var oi, price := DeltaMap(series, OpenInterest), DeltaMap(series, Price);
      var referenceOi, referencePrice := ReferenceDelta(oi), ReferenceDelta(price);
      var expansion := ClassifyExpansion(referencePrice, referenceOi);
      var momentum := MomentumScore(expansion, referencePrice.Some? && referenceOi.Some?, BuyerAggression(latest),
                                    latest.funding, latest.premium);
      var crowding := CrowdingScore(latest, ln);
      Some(Card(Rounded(momentum), Rounded(crowding), SqueezeScores(crowding, referenceOi, PriceAcceleration(price)),
                latest.openInterest, latest.funding, BuyerAggression(latest), |series|))
  }

  /** Every number on a card is in range. */
  lemma {:induction false} CardInRange(series: seq<Sample>, ln: real -> real)
    requires |series| > 0
    ensures var card := Derive(series, ln).value;
            && Percent(card.momentum) && Percent(card.crowding)
            && 0.0 <= card.squeeze.long && 0.0 <= card.squeeze.short && card.squeeze.long + card.squeeze.short <= 100.0
  {
    var latest := series[|series| - 1];
    var oi, price := DeltaMap(series, OpenInterest), DeltaMap(series, Price);
    var referenceOi, referencePrice := ReferenceDelta(oi), ReferenceDelta(price);
    var expansion, evidence := ClassifyExpansion(referencePrice, referenceOi),
      referencePrice.Some? && referenceOi.Some?;
    MomentumInRange(expansion, evidence, latest);
    CrowdingInRange(latest, ln);
    SqueezePairWithinHundred(CrowdingScore(latest, ln), referenceOi, PriceAcceleration(price));
    RoundedPercent(MomentumScore(expansion, evidence, BuyerAggression(latest), latest.funding, latest.premium));
    RoundedPercent(CrowdingScore(latest, ln));
  }

  ghost predicate Unread(series: seq<Sample>, reading: Reading) {
    forall i :: 0 <= i < |series| ==> Read(series[i], reading).None?
  }

  lemma {:induction false} UnreadHasNoDelta(series: seq<Sample>, reading: Reading, window: nat)
    requires Unread(series, reading)
    ensures PctDelta(series, reading, window) == None
  {
    LatestIsLast(series, |series|, reading);
    assert LatestOf(series, |series|, reading).Some? ==> false;
  }

  /** The fuel is open interest's move and the speed is the price's: without the one, and without the other, the squeeze
      stands as if it had not moved, and the moves are no evidence of momentum. */
  lemma {:induction false} CardWithout(series: seq<Sample>, ln: real -> real)
    requires |series| > 0
    ensures var card, latest := Derive(series, ln).value, series[|series| - 1];
            var crowding := CrowdingScore(latest, ln);
            var flow := BuyerAggression(latest);
            var silent := Rounded(MomentumScore(Neutral, false, flow, latest.funding, latest.premium));
            && ((forall p :: p in series ==> p.openInterest.None?) ==>
                  && card.squeeze == SqueezeScores(crowding, None, PriceAcceleration(DeltaMap(series, Price)))
                  && card.momentum == silent)
            && ((forall p :: p in series ==> p.price.None?) ==>
                  && card.squeeze == SqueezeScores(crowding, ReferenceDelta(DeltaMap(series, OpenInterest)), None)
                  && card.momentum == silent)
  {
    hide PctDelta, CrowdingScore, SqueezeScores, BuyerAggression;
    forall reading | Unread(series, reading) ensures DeltaMap(series, reading) == Deltas(None, None, None, None) {
      UnreadHasNoDelta(series, reading, 300);
      UnreadHasNoDelta(series, reading, 900);
      UnreadHasNoDelta(series, reading, 3600);
      UnreadHasNoDelta(series, reading, 86400);
    }
    assert (forall p :: p in series ==> p.openInterest.None?) ==> Unread(series, OpenInterest);
    assert (forall p :: p in series ==> p.price.None?) ==> Unread(series, Price);
  }

  lemma {:induction false} RoundedPercent(x: Option<real>)
    requires Percent(x)
    ensures Percent(Rounded(x))
  {
    if x.Some? { RoundedShares(x.value, 100.0 - x.value, x.value); }
  }

  // ---------------------------------------------------------------- sparklines

  datatype Metric = MomentumLine | OpenInterestLine | FundingLine | AggressionLine | SqueezeLongLine | SqueezeShortLine

  datatype HistoryWindow = Minutes5 | Hour1 | Hours4 | Hours24

  function Lookback(w: HistoryWindow): nat {
    match w
    case Minutes5 => 300
    case Hour1 => 3600
    case Hours4 => 14400
    case Hours24 => 86400
  }

  datatype SparkPoint = SparkPoint(t: int, v: real)

  function MomentumAt(series: seq<Sample>, index: nat): Option<real>
    requires index < |series|
  {
    var window := series[..index + 1];
    var point := window[|window| - 1];
    var oi, price := ReferenceDelta(DeltaMap(window, OpenInterest)), ReferenceDelta(DeltaMap(window, Price));
    MomentumScore(ClassifyExpansion(price, oi), price.Some? && oi.Some?, BuyerAggression(point), point.funding,
                  point.premium)
  }

  function SqueezeAt(series: seq<Sample>, index: nat, side: Side, ln: real -> real): real
    requires index < |series|
  {
    var window := series[..index + 1];
    var crowding := CrowdingScore(window[|window| - 1], ln);
    var squeeze := SqueezeScores(crowding, ReferenceDelta(DeltaMap(window, OpenInterest)),
                                 PriceAcceleration(DeltaMap(window, Price)));
    if side == Long then squeeze.long else squeeze.short
  }

  function ValueAt(series: seq<Sample>, metric: Metric, index: nat, ln: real -> real): Option<real>
    requires index < |series|
  {
    match metric
    case OpenInterestLine => series[index].openInterest
    case FundingLine => series[index].funding
    case AggressionLine => BuyerAggression(series[index])
    case SqueezeLongLine => Some(SqueezeAt(series, index, Long, ln))
    case SqueezeShortLine => Some(SqueezeAt(series, index, Short, ln))
    case MomentumLine => MomentumAt(series, index)
  }

  /** A line reads one value off the samples so far. */
  type Line = seq<Sample> -> Option<real>

  function LineOf(metric: Metric, ln: real -> real): Line {
    (past: seq<Sample>) => if |past| == 0 then None else ValueAt(past, metric, |past| - 1, ln)
  }

  /** The points of the first `n` samples, from the cutoff on; a missing value has no point. */
  function PointsUpTo(series: seq<Sample>, line: Line, cutoff: int, n: nat): seq<SparkPoint>
    requires n <= |series|
  {
    if n == 0 then []
    else
      var before, value := PointsUpTo(series, line, cutoff, n - 1), line(series[..n]);
      if series[n - 1].time < cutoff || value == None then before
      else before + [SparkPoint(series[n - 1].time, Round8(value.value))]
  }

  function History(series: seq<Sample>, line: Line, window: HistoryWindow): seq<SparkPoint> {
    if |series| == 0 then [] else PointsUpTo(series, line, series[|series| - 1].time - Lookback(window), |series|)
  }

  method HistorySeries(series: seq<Sample>, line: Line, window: HistoryWindow) returns (points: seq<SparkPoint>)
    ensures points == History(series, line, window)
  {
    if |series| == 0 {
      return [];
    }
    var cutoff := series[|series| - 1].time - Lookback(window);
    points := [];
    for index := 0 to |series|
      invariant points == PointsUpTo(series, line, cutoff, index)
    {
      if series[index].time < cutoff {
        continue;
      }
      var value := line(series[..index + 1]);
      if value == None {
        continue;
      }
      points := points + [SparkPoint(series[index].time, Round8(value.value))];
    }
  }

  /** A line point is the value as it would have read at that sample: later samples play no part in it. */
  lemma {:induction false} ValueUsesOnlyThePast(series: seq<Sample>, metric: Metric, i: nat, ln: real -> real)
    requires i < |series|
    ensures ValueAt(series, metric, i, ln) == LineOf(metric, ln)(series[..i + 1])
  {
    assert series[..i + 1][..i + 1] == series[..i + 1];
  }

  /** What the card shows for a line's metric. */
  function CardValue(card: Card, metric: Metric): Option<real> {
    match metric
    case OpenInterestLine => card.openInterest
    case FundingLine => card.funding
    case AggressionLine => card.aggression
    case SqueezeLongLine => Some(card.squeeze.long)
    case SqueezeShortLine => Some(card.squeeze.short)
    case MomentumLine => card.momentum
  }

  lemma {:induction false} SqueezeSurvivesRound8(crowding: Option<real>, oiDelta: Option<real>,
                                                 acceleration: Option<real>)
    ensures var s := SqueezeScores(crowding, oiDelta, acceleration);
            Round8(s.long) == s.long && Round8(s.short) == s.short
  {
    if crowding.Some? {
      var share := Clamp(crowding.value, 0.0, 100.0);
      var fuel := if oiDelta == None then 0.0 else Clamp(oiDelta.value, 0.0, 5.0) / 5.0;
      var accel := if acceleration == None then 0.0 else acceleration.value;
      TenthsSurviveRound8(Pressure(share, fuel, Clamp(-accel, 0.0, 2.0) / 2.0));
      TenthsSurviveRound8(Pressure(100.0 - share, fuel, Clamp(accel, 0.0, 2.0) / 2.0));
    }
  }

  /** A line with a value now ends on it, at the latest sample. */
  lemma {:induction false} LastPointIsLatest(series: seq<Sample>, line: Line, window: HistoryWindow)
    requires |series| > 0 && line(series).Some?
    ensures var points := History(series, line, window);
            |points| > 0 && points[|points| - 1] == SparkPoint(series[|series| - 1].time, Round8(line(series).value))
  {
    assert series[..|series|] == series;
  }

  /** A sparkline ends on the number printed above it: whenever the card shows a value, the last point is
      at the latest sample and rounds the value the card rounds; a squeeze value is the card's own. */
  lemma {:induction false} LastPointIsTheCard(series: seq<Sample>, metric: Metric, window: HistoryWindow,
                                              ln: real -> real)
    requires |series| > 0
    ensures var shown, points := CardValue(Derive(series, ln).value, metric),
            History(series, LineOf(metric, ln), window);
            shown.Some? ==>
              && |points| > 0 && points[|points| - 1].t == series[|series| - 1].time
              && var last := points[|points| - 1].v;
                 match metric
                 case SqueezeLongLine => last == shown.value
                 case SqueezeShortLine => last == shown.value
                 case MomentumLine => MomentumAt(series, |series| - 1).Some?
                   && last == Round8(MomentumAt(series, |series| - 1).value)
                      && shown.value == Round1(MomentumAt(series, |series| - 1).value)
                 case _ => last == Round8(shown.value)
  {
    assert series[..|series|] == series;
    var line := LineOf(metric, ln);
    assert line(series) == ValueAt(series, metric, |series| - 1, ln);
    if line(series).Some? { LastPointIsLatest(series, line, window); }
    SqueezeSurvivesRound8(CrowdingScore(series[|series| - 1], ln), ReferenceDelta(DeltaMap(series, OpenInterest)),
                          PriceAcceleration(DeltaMap(series, Price)));
  }

  // ---------------------------------------------------------------- history is never rewritten

  ghost predicate TimesAscend(series: seq<Sample>) {
    forall i, j :: 0 <= i < j < |series| ==> series[i].time < series[j].time
  }

  predicate IsPoint(p: SparkPoint, series: seq<Sample>, line: Line, cutoff: int, i: nat)
    requires i < |series|
  {
    var value := line(series[..i + 1]);
    cutoff <= series[i].time == p.t && value.Some? && p.v == Round8(value.value)
  }

  lemma {:induction false} PointMeaning(p: SparkPoint, series: seq<Sample>, line: Line, cutoff: int, n: nat)
    requires n <= |series|
    ensures p in PointsUpTo(series, line, cutoff, n) <==> exists i: nat :: i < n && IsPoint(p, series, line, cutoff, i)
  {
    if n > 0 {
      PointMeaning(p, series, line, cutoff, n - 1);
      var isLast := IsPoint(p, series, line, cutoff, n - 1);
      assert isLast ==> p in PointsUpTo(series, line, cutoff, n);
    }
  }

  lemma {:induction false} SamePoint(p: SparkPoint, series: seq<Sample>, later: seq<Sample>, line: Line, cutoff: int,
                                     raised: int, i: nat)
    requires i < |series| && cutoff <= raised
    ensures IsPoint(p, series + later, line, raised, i) <==> IsPoint(p, series, line, cutoff, i) && raised <= p.t
  {
    assert (series + later)[..i + 1] == series[..i + 1];
  }

  /** Appending samples rewrites no point: up to the old last sample the new line is the old one, less what
      slid out of the window. */
  lemma {:induction false} HistoryNeverRewritten(series: seq<Sample>, later: seq<Sample>, line: Line,
                                                 window: HistoryWindow, p: SparkPoint)
    requires |series| > 0 && TimesAscend(series + later) && p.t <= series[|series| - 1].time
    ensures var all := series + later;
            p in History(all, line, window)
            <==> p in History(series, line, window) && all[|all| - 1].time - Lookback(window) <= p.t
  {
    hide PointsUpTo, Lookback, Round8;
    var all := series + later;
    var cutoff, raised := series[|series| - 1].time - Lookback(window), all[|all| - 1].time - Lookback(window);
    PointMeaning(p, all, line, raised, |all|);
    PointMeaning(p, series, line, cutoff, |series|);
    assert all[|series| - 1].time <= all[|all| - 1].time;
    if p in History(all, line, window) {
      var i: nat :| i < |all| && IsPoint(p, all, line, raised, i);
      assert all[i].time <= all[|series| - 1].time;
      SamePoint(p, series, later, line, cutoff, raised, i);
    }
    if p in History(series, line, window) && raised <= p.t {
      var i: nat :| i < |series| && IsPoint(p, series, line, cutoff, i);
      SamePoint(p, series, later, line, cutoff, raised, i);
    }
  }
}
