/** The entry, stop and target plan of one timeframe (engine/smc/quant.py), before its prices are rounded
    for quotation. */
module RiskPlanning {
  import opened Types
  import opened Structure
  import opened Quant
  import Zones

  datatype StopMethod = FixedPercent | AtrDistance | SwingLevel

  datatype Settings = Settings(accountSize: real, maxRiskPercent: real, minimumRewardRisk: real,
                               atrStopMultiplier: real, fixedStopPercent: real, stopMethod: StopMethod)

  const DEFAULT_SETTINGS := Settings(100000.0, 0.75, 1.8, 1.5, 2.0, SwingLevel)

  // ---------------------------------------------------------------- support and resistance

  /** Lows below the close support it, highs above it resist it. */
  predicate Facing(p: Pivot, kind: Kind, close: real) {
    p.kind == kind && if kind == Low then p.price < close else p.price > close
  }

  function Nearer(kind: Kind, a: real, b: real): real { if kind == Low then Max(a, b) else Min(a, b) }

  predicate NoNearer(kind: Kind, a: real, b: real) { if kind == Low then a <= b else a >= b }

  /** The nearest facing pivot price. */
  function NearestPivot(pivots: seq<Pivot>, kind: Kind, close: real): Option<real> {
    if |pivots| == 0 then None
    else
      var rest, last := NearestPivot(pivots[..|pivots| - 1], kind, close), pivots[|pivots| - 1];
      if !Facing(last, kind, close) then rest
      else if rest == None then Some(last.price) else Some(Nearer(kind, rest.value, last.price))
  }

  lemma {:induction false} NearestPivotMeaning(pivots: seq<Pivot>, kind: Kind, close: real)
    ensures var nearest := NearestPivot(pivots, kind, close);
            && (nearest == None <==> forall p :: p in pivots ==> !Facing(p, kind, close))
            && (nearest.Some? ==>
                  && (exists p :: p in pivots && Facing(p, kind, close) && p.price == nearest.value)
                  && (forall p :: p in pivots && Facing(p, kind, close) ==> NoNearer(kind, p.price, nearest.value)))
  {
    if |pivots| > 0 {
      var init, last := pivots[..|pivots| - 1], pivots[|pivots| - 1];
      NearestPivotMeaning(init, kind, close);
      assert pivots == init + [last];
      if NearestPivot(init, kind, close).Some? {
        var p :| p in init && Facing(p, kind, close) && p.price == NearestPivot(init, kind, close).value;
        assert p in pivots;
      }
    }
  }

  /** The extreme of a stretch of candles: its lowest low or highest high. */
  function Extreme(candles: seq<Candle>, kind: Kind): real
    requires |candles| > 0
  {
    var last := candles[|candles| - 1];
    var level := if kind == Low then last.low else last.high;
    if |candles| == 1 then level
    else if kind == Low then Min(Extreme(candles[..|candles| - 1], kind), level)
      else Max(Extreme(candles[..|candles| - 1], kind), level)
  }

  /** Without a facing pivot, the extreme of the twenty bars before the last; without those, the close. */
  function NearestLevel(candles: seq<Candle>, pivots: seq<Pivot>, kind: Kind): Option<real> {
    var n := |candles|;
    if n == 0 then None
    else
      var close := candles[n - 1].close;
      var pivot := NearestPivot(pivots, kind, close);
      if pivot.Some? then pivot
      else if n == 1 then Some(close) else Some(Extreme(candles[if n >= 21 then n - 21 else 0..n - 1], kind))
  }

  /** The twenty bars before the last. */
  function Before(candles: seq<Candle>): seq<Candle>
    requires |candles| > 0
  {
    var n := |candles|;
    candles[if n >= 21 then n - 21 else 0..n - 1]
  }

  /** The level already lies on the wrong side of the close. */
  predicate WrongSide(kind: Kind, level: real, close: real) { if kind == Low then close < level else close > level }

  /** A support above the close, or a resistance below it, comes only from the fallback: no pivot faces the close
      and it has left the whole range of the bars before. */
  lemma {:induction false} LevelOnWrongSideIff(candles: seq<Candle>, pivots: seq<Pivot>, kind: Kind)
    requires |candles| > 0
    ensures NearestLevel(candles, pivots, kind).Some?
    ensures var close := candles[|candles| - 1].close;
            WrongSide(kind, NearestLevel(candles, pivots, kind).value, close)
            <==> && (forall p :: p in pivots ==> !Facing(p, kind, close))
                 && |candles| > 1 && WrongSide(kind, Extreme(Before(candles), kind), close)
    ensures var level := NearestLevel(candles, pivots, kind).value;
            WrongSide(kind, level, candles[|candles| - 1].close) ==>
              |candles| > 1 && level == Extreme(Before(candles), kind)
  {
    var close := candles[|candles| - 1].close;
    NearestPivotMeaning(pivots, kind, close);
  }

  lemma {:induction false} ExtremeIsOutermost(candles: seq<Candle>, kind: Kind)
    requires |candles| > 0
    ensures var x := Extreme(candles, kind);
            match kind
            case Low => (forall c :: c in candles ==> x <= c.low) && exists c :: c in candles && c.low == x
            case High => (forall c :: c in candles ==> c.high <= x) && exists c :: c in candles && c.high == x
  {
    var init, last := candles[..|candles| - 1], candles[|candles| - 1];
    assert candles == init + [last];
    if |init| > 0 { ExtremeIsOutermost(init, kind); }
  }

  /** Support in prices: the highest pivot low under the close; without one the lowest low of the up to twenty bars
      before the last; with no bar before it the close itself. */
  lemma {:induction false} SupportOnPrices(candles: seq<Candle>, pivots: seq<Pivot>)
    requires |candles| > 0
    ensures var n, level := |candles|, NearestLevel(candles, pivots, Low).value;
            var close, earlier := candles[n - 1].close, candles[if n > 20 then n - 21 else 0..n - 1];
            var under := (p: Pivot) => p.kind == Low && p.price < close;
            if exists p :: p in pivots && under(p) then
              && (exists p :: p in pivots && under(p) && p.price == level)
              && (forall p :: p in pivots && under(p) ==> p.price <= level)
            else if n == 1 then level == close
            else (forall c :: c in earlier ==> level <= c.low) && exists c :: c in earlier && c.low == level
  {
    var n := |candles|;
    NearestPivotMeaning(pivots, Low, candles[n - 1].close);
    hide NearestPivot, Extreme;
    if n > 1 { ExtremeIsOutermost(Before(candles), Low); }
  }

  /** Resistance the other way up. */
  lemma {:induction false} ResistanceOnPrices(candles: seq<Candle>, pivots: seq<Pivot>)
    requires |candles| > 0
    ensures var n, level := |candles|, NearestLevel(candles, pivots, High).value;
            var close, earlier := candles[n - 1].close, candles[if n > 20 then n - 21 else 0..n - 1];
            var over := (p: Pivot) => p.kind == High && p.price > close;
            if exists p :: p in pivots && over(p) then
              && (exists p :: p in pivots && over(p) && p.price == level)
              && (forall p :: p in pivots && over(p) ==> level <= p.price)
            else if n == 1 then level == close
            else (forall c :: c in earlier ==> c.high <= level) && exists c :: c in earlier && c.high == level
  {
    var n := |candles|;
    NearestPivotMeaning(pivots, High, candles[n - 1].close);
    hide NearestPivot, Extreme;
    if n > 1 { ExtremeIsOutermost(Before(candles), High); }
  }

  // ---------------------------------------------------------------- the defended level

  /** A swing is at or beyond every pivot of its leg, so a facing pivot has a facing swing. */
  lemma {:induction false} FacingPivotHasSwing(pivots: seq<Pivot>, p: Pivot, kind: Kind, close: real)
    requires p in pivots && Facing(p, kind, close)
    ensures exists s :: s in Legs(pivots) && Facing(s, kind, close)
  {
    var runs := MaximalRunsExist(pivots);
    LegsAreRunExtremes(pivots, runs);
    var k := RunOf(runs, p);
    var leg := Legs(pivots)[k];
    assert EarliestExtreme(runs[k], leg);
    var i: nat :| ExtremeAt(runs[k], leg, i);
    var j :| 0 <= j < |runs[k]| && runs[k][j] == p;
    assert !Outside(leg.kind, runs[k][j].price, leg.price);
    assert leg in Legs(pivots);
  }

  lemma {:induction false} RunOf(runs: seq<seq<Pivot>>, p: Pivot) returns (k: nat)
    requires p in Flatten(runs)
    ensures k < |runs| && p in runs[k]
  {
    var n := |runs| - 1;
    if p in runs[n] {
      k := n;
    } else {
      k := RunOf(runs[..n], p);
    }
  }

  lemma {:induction false} LegIsPivot(pivots: seq<Pivot>, s: Pivot)
    requires s in Legs(pivots)
    ensures s in pivots
  {
    var init, last := pivots[..|pivots| - 1], pivots[|pivots| - 1];
    assert pivots == init + [last];
    if s != last && s in Legs(init) { LegIsPivot(init, s); }
  }

  /** The level a swing stop goes behind is never nearer than the raw one. */
  lemma {:induction false} DefendedIsDeeper(candles: seq<Candle>, pivots: seq<Pivot>, kind: Kind)
    requires |candles| > 0
    ensures NearestLevel(candles, pivots, kind).Some? && NearestLevel(candles, Legs(pivots), kind).Some?
    ensures NoNearer(kind, NearestLevel(candles, Legs(pivots), kind).value, NearestLevel(candles, pivots, kind).value)
  {
    var close := candles[|candles| - 1].close;
    var raw, defended := NearestPivot(pivots, kind, close), NearestPivot(Legs(pivots), kind, close);
    NearestPivotMeaning(pivots, kind, close);
    NearestPivotMeaning(Legs(pivots), kind, close);
    if defended.Some? {
      var s :| s in Legs(pivots) && Facing(s, kind, close) && s.price == defended.value;
      LegIsPivot(pivots, s);
    }
    if raw.Some? {
      var p :| p in pivots && Facing(p, kind, close) && p.price == raw.value;
      FacingPivotHasSwing(pivots, p, kind, close);
    }
  }

  // ---------------------------------------------------------------- the plan

  /** A live price wins over the last close; without either the entry is zero. */
  function EntryPrice(candles: seq<Candle>, live: Option<real>): real {
    if live.Some? && live.value > 0.0 then live.value
    else if |candles| > 0 then candles[|candles| - 1].close else 0.0
  }

  /** The mean of the last fourteen true ranges; a missing or zero one falls back to 2% of the entry. */
  function Range14(candles: seq<Candle>, entry: real): real {
    var n := |candles|;
    if n < 15 || Zones.TotalRange(candles, n - 14, n) == 0.0 then entry * 0.02
      else Zones.TotalRange(candles, n - 14, n) / 14.0
  }

  lemma {:induction false} RangesNonNegative(candles: seq<Candle>, lo: nat, hi: nat)
    requires lo <= hi <= |candles|
    ensures Zones.TotalRange(candles, lo, hi) >= 0.0
  {
    if lo < hi { RangesNonNegative(candles, lo, hi - 1); }
  }

  lemma {:induction false} RangePositive(candles: seq<Candle>, entry: real)
    requires entry > 0.0
    ensures Range14(candles, entry) > 0.0
  {
    var n := |candles|;
    if n >= 15 { RangesNonNegative(candles, n - 14, n); }
  }

  function LevelOr(level: Option<real>, fallback: real): real { if level.Some? then level.value else fallback }

  /** Everything the plan is computed from, for either side. */
  datatype Frame = Frame(entry: real, range14: real, support: real, resistance: real, defendedSupport: real,
                         defendedResistance: real)

  function FrameOf(candles: seq<Candle>, pivots: seq<Pivot>, live: Option<real>): Frame {
    var entry := EntryPrice(candles, live);
    var range14 := Range14(candles, entry);
    var support := LevelOr(NearestLevel(candles, pivots, Low), entry - range14 * 1.5);
    var resistance := LevelOr(NearestLevel(candles, pivots, High), entry + range14 * 2.0);
    Frame(entry, range14, support, resistance,
          LevelOr(NearestLevel(candles, Legs(pivots), Low), support),
          LevelOr(NearestLevel(candles, Legs(pivots), High), resistance))
  }

  /** What a plan is read from: the live price if there is a positive one, else the last close; the mean of the last
      fourteen ranges, or two percent of that price without fifteen bars or any movement; and the nearest levels, those
      of the legs for the stop. */
  lemma {:induction false} FrameOnReads(candles: seq<Candle>, pivots: seq<Pivot>, live: Option<real>)
    requires |candles| > 0
    ensures var f, n := FrameOf(candles, pivots, live), |candles|;
            && f.entry == (match live
                           case Some(price) => if price > 0.0 then price else candles[n - 1].close
                           case None => candles[n - 1].close)
            && (n < 15 ==> 50.0 * f.range14 == f.entry)
            && (n >= 15 && Zones.TotalRange(candles, n - 14, n) == 0.0 ==> 50.0 * f.range14 == f.entry)
            && (n >= 15 && Zones.TotalRange(candles, n - 14, n) != 0.0 ==>
                  14.0 * f.range14 == Zones.TotalRange(candles, n - 14, n))
            && Some(f.support) == NearestLevel(candles, pivots, Low)
            && Some(f.resistance) == NearestLevel(candles, pivots, High)
            && Some(f.defendedSupport) == NearestLevel(candles, Legs(pivots), Low)
            && Some(f.defendedResistance) == NearestLevel(candles, Legs(pivots), High)
  {
    LevelOnWrongSideIff(candles, pivots, Low);
    LevelOnWrongSideIff(candles, pivots, High);
    LevelOnWrongSideIff(candles, Legs(pivots), Low);
    LevelOnWrongSideIff(candles, Legs(pivots), High);
    hide NearestLevel, Zones.TotalRange;
  }

  /** Without candles the levels are one and a half ranges below the entry and two above. */
  lemma {:induction false} FrameOnNothing(pivots: seq<Pivot>, live: real)
    requires live > 0.0
    ensures var f := FrameOf([], pivots, Some(live));
            && f.entry == live && 50.0 * f.range14 == live
            && f.support == f.defendedSupport == live - 0.03 * live
            && f.resistance == f.defendedResistance == live + 0.04 * live
  {}

  function StopPrice(f: Frame, side: Side, s: Settings): real {
    match s.stopMethod
    case FixedPercent => if side == Long then f.entry * (1.0 - s.fixedStopPercent / 100.0)
      else f.entry * (1.0 + s.fixedStopPercent / 100.0)
    case AtrDistance => if side == Long then f.entry - f.range14 * s.atrStopMultiplier
      else f.entry + f.range14 * s.atrStopMultiplier
    case SwingLevel =>
      if side == Long then Min(f.defendedSupport, f.entry - f.range14 * 0.7)
        else Max(f.defendedResistance, f.entry + f.range14 * 0.7)
  }

  datatype Plan = Plan(entry: real, entryLow: real, entryHigh: real, stop: real, target1: real, target2: real,
                       riskPerUnit: real, rewardRisk1: real, rewardRisk2: real, maxDollarRisk: real, positionSize: real)

  function SizeFor(maxDollarRisk: real, riskPerUnit: real): real {
    if riskPerUnit > 0.0 then RoundHalfUp(maxDollarRisk / riskPerUnit, 1000000.0) else 0.0
  }

  function RewardRisk(target: real, entry: real, riskPerUnit: real): real {
    if riskPerUnit > 0.0 then Round2(Abs(target - entry) / riskPerUnit) else 0.0
  }

  function PlanFor(f: Frame, direction: TradeDirection, s: Settings): Plan {
    var maxDollarRisk := s.accountSize * (s.maxRiskPercent / 100.0);
    match direction
    case None => Plan(f.entry, f.entry, f.entry, f.entry, f.entry, f.entry, 0.0, 0.0, 0.0, maxDollarRisk, 0.0)
    case Some(side) =>
      var stop := StopPrice(f, side, s);
      var risk, pullback := Abs(f.entry - stop), f.range14 * 1.1;
      var low := if side == Long then Min(f.entry, Max(Max(f.support, f.entry - pullback), stop + f.range14 * 0.1))
        else f.entry;
      var high := if side == Long then f.entry
        else Max(f.entry, Min(Min(f.resistance, f.entry + pullback), stop - f.range14 * 0.1));
      var target1 := if side == Long then Max(f.resistance, f.entry + risk * 1.8)
        else Min(f.support, f.entry - risk * 1.8);
      var target2 := if side == Long then f.entry + risk * 3.0 else f.entry - risk * 3.0;
      Plan(f.entry, low, high, stop, target1, target2, risk, RewardRisk(target1, f.entry, risk),
           RewardRisk(target2, f.entry, risk), maxDollarRisk, SizeFor(maxDollarRisk, risk))
  }

  function BuildRiskPlan(candles: seq<Candle>, pivots: seq<Pivot>, direction: TradeDirection, s: Settings,
                         live: Option<real>): Plan {
    PlanFor(FrameOf(candles, pivots, live), direction, s)
  }

  // ---------------------------------------------------------------- what a plan promises

  /** `far` lies strictly past `near` in the trade's direction. */
  predicate Ahead(side: Side, far: real, near: real) { if side == Long then far > near else far < near }

  /** At a positive price the stop is on the losing side exactly when its method's own setting is positive;
      a swing stop always is, and leaves at least 0.7 of the average range. */
  lemma {:induction false} StopSideIff(f: Frame, side: Side, s: Settings)
    requires f.entry > 0.0 && f.range14 > 0.0
    ensures var stop := StopPrice(f, side, s);
            && (Ahead(side, f.entry, stop)
                <==> match s.stopMethod
                     case FixedPercent => s.fixedStopPercent > 0.0
                     case AtrDistance => s.atrStopMultiplier > 0.0
                     case SwingLevel => true)
            && (s.stopMethod == SwingLevel ==> Abs(f.entry - stop) >= f.range14 * 0.7)
  {
    match s.stopMethod
    case FixedPercent => ProductSign(f.entry, s.fixedStopPercent / 100.0);
    case AtrDistance => ProductSign(f.range14, s.atrStopMultiplier);
    case SwingLevel =>
  }

  lemma {:induction false} ProductSign(a: real, b: real)
    requires a > 0.0
    ensures a * b > 0.0 <==> b > 0.0
    ensures a * (1.0 - b) == a - a * b && a * (1.0 + b) == a + a * b
  {
    if b > 0.0 { assert a * b > 0.0; } else { assert a * (-b) >= 0.0; }
  }

  lemma {:induction false} Multiple(k: real, gain: real, risk: real)
    requires risk > 0.0
    ensures k * risk / risk == k
    ensures gain >= k * risk ==> gain / risk >= k
  {
    var q := k * risk / risk;
    assert (q - k) * risk == 0.0;
    if gain >= k * risk { DivMonotone(k * risk, gain, risk); }
  }

  lemma {:induction false} RewardAtLeast(target: real, entry: real, risk: real)
    requires risk > 0.0
    ensures Abs(target - entry) >= 1.8 * risk ==> RewardRisk(target, entry, risk) >= 1.8
    ensures Abs(target - entry) == 3.0 * risk ==> RewardRisk(target, entry, risk) == 3.0
  {
    var gain := Abs(target - entry);
    Multiple(1.8, gain, risk);
    Multiple(3.0, gain, risk);
    if gain >= 1.8 * risk { RoundMonotone(1.8, gain / risk, 100.0); }
    assert Round2(1.8) == 1.8 && Round2(3.0) == 3.0;
  }

  /** The entry zone never reaches the stop, both targets lie strictly ahead of the entry, target 1 pays
      at least 1.8 and target 2 exactly 3. */
  lemma {:induction false} PlanIsOrdered(f: Frame, side: Side, s: Settings)
    requires f.range14 > 0.0 && Ahead(side, f.entry, StopPrice(f, side, s))
    ensures var plan := PlanFor(f, Some(side), s);
            && plan.riskPerUnit > 0.0
            && Ahead(side, plan.entryLow, plan.stop) && Ahead(side, plan.entryHigh, plan.stop)
            && plan.entryLow <= plan.entry <= plan.entryHigh
            && Ahead(side, plan.target1, plan.entry) && Ahead(side, plan.target2, plan.entry)
            && plan.rewardRisk1 >= 1.8 && plan.rewardRisk2 == 3.0
  {
    var plan := PlanFor(f, Some(side), s);
    RewardAtLeast(plan.target1, plan.entry, plan.riskPerUnit);
    RewardAtLeast(plan.target2, plan.entry, plan.riskPerUnit);
  }

  /** From candles and pivots up, a default plan at a positive price has its stop behind the nearest raw level
      and at least 0.7 of the average range away, with entry zone and targets in order. */
  lemma {:induction false} SwingPlanIsSound(candles: seq<Candle>, pivots: seq<Pivot>, side: Side, s: Settings,
                                            live: Option<real>)
    requires s.stopMethod == SwingLevel && |candles| > 0 && EntryPrice(candles, live) > 0.0
    ensures var plan, range14 := BuildRiskPlan(candles, pivots, Some(side), s, live),
            Range14(candles, EntryPrice(candles, live));
            && range14 > 0.0 && plan.riskPerUnit >= range14 * 0.7
            && (if side == Long then plan.stop <= NearestLevel(candles, pivots, Low).value
                && plan.stop < plan.entryLow <= plan.entry
                else plan.stop >= NearestLevel(candles, pivots, High).value && plan.stop > plan.entryHigh >= plan.entry)
            && Ahead(side, plan.target1, plan.entry) && Ahead(side, plan.target2, plan.entry)
            && plan.rewardRisk1 >= 1.8 && plan.rewardRisk2 == 3.0
  {
    var f := FrameOf(candles, pivots, live);
    RangePositive(candles, f.entry);
    DefendedIsDeeper(candles, pivots, Low);
    DefendedIsDeeper(candles, pivots, High);
    StopSideIff(f, side, s);
    PlanIsOrdered(f, side, s);
  }

  /** Target 1 may be a far level: it lies within target 2 exactly when that level is within 3R. */
  lemma {:induction false} FirstTargetFirstIff(f: Frame, side: Side, s: Settings)
    ensures var plan := PlanFor(f, Some(side), s);
            !Ahead(side, plan.target1, plan.target2)
            <==> if side == Long then f.resistance <= f.entry + plan.riskPerUnit * 3.0
              else f.support >= f.entry - plan.riskPerUnit * 3.0
  {}

  /** So the reward/risk veto cannot fire while the configured minimum is at most 1.8 and the stop leaves
      any risk at all; the defaults are such settings. */
  lemma {:induction false} RewardVetoNeverFires(raw: RawRead, f: Frame, s: Settings)
    requires s.minimumRewardRisk <= 1.8 && f.entry > 0.0 && f.range14 > 0.0
    requires var direction := DecisionFromSetup(raw.setup);
             && raw.rewardRiskOk == (PlanFor(f, direction, s).rewardRisk1 >= s.minimumRewardRisk)
             && (direction.Some? ==> Ahead(direction.value, f.entry, StopPrice(f, direction.value, s)))
    ensures RewardRiskLow !in NoTradeReasons(raw)
  {
    var direction := DecisionFromSetup(raw.setup);
    if direction.Some? { PlanIsOrdered(f, direction.value, s); }
  }

  lemma {:induction false} PaidIsNoVeto(raw: RawRead)
    requires DecisionFromSetup(raw.setup).Some? ==> raw.rewardRiskOk
    ensures RewardRiskLow !in NoTradeReasons(raw)
  {}

  /** With the default settings, then, no read at a positive price is ever vetoed for its reward. */
  lemma {:induction false} DefaultRewardVetoNeverFires(raw: RawRead, candles: seq<Candle>, pivots: seq<Pivot>,
                                                       live: Option<real>)
    requires EntryPrice(candles, live) > 0.0
    requires var plan := BuildRiskPlan(candles, pivots, DecisionFromSetup(raw.setup), DEFAULT_SETTINGS, live);
             raw.rewardRiskOk == (plan.rewardRisk1 >= DEFAULT_SETTINGS.minimumRewardRisk)
    ensures RewardRiskLow !in NoTradeReasons(raw)
  {
    hide BuildRiskPlan, NoTradeReasons;
    var direction := DecisionFromSetup(raw.setup);
    DefaultsAreWorkable();
    if direction.Some? { PlanRisks(candles, pivots, direction.value, DEFAULT_SETTINGS, live); }
    PaidIsNoVeto(raw);
  }

  /** `x` is the greatest (least) of `xs`. */
  ghost predicate IsEnd(x: real, xs: set<real>, greatest: bool) {
    x in xs && forall y :: y in xs ==> if greatest then y <= x else x <= y
  }

  /** A long plan in prices. The stop is the method's own, a swing stop the lower of the defended level and seven tenths
      of a range; the zone runs from the entry down to the nearest of the support, 1.1 ranges, and a tenth of a range
      off the stop; the targets are the farther of the resistance and 1.8R, and 3R. */
  lemma {:induction false} LongPlanOnPrices(f: Frame, s: Settings)
    ensures var plan := PlanFor(f, Some(Long), s);
            && plan.entry == f.entry == plan.entryHigh && plan.stop == StopPrice(f, Long, s)
            && plan.riskPerUnit == Abs(f.entry - plan.stop)
            && (s.stopMethod == SwingLevel ==> IsEnd(plan.stop, {f.defendedSupport, f.entry - 0.7 * f.range14}, false))
            && (s.stopMethod == AtrDistance ==> f.entry - plan.stop == f.range14 * s.atrStopMultiplier)
            && (s.stopMethod == FixedPercent ==>
                  100.0 * (f.entry - plan.stop) == f.entry * s.fixedStopPercent)
            && (plan.entryLow == f.entry
                || IsEnd(plan.entryLow, {f.support, f.entry - 1.1 * f.range14, plan.stop + 0.1 * f.range14}, true))
            && plan.entryLow <= f.entry
            && IsEnd(plan.target1, {f.resistance, f.entry + 1.8 * plan.riskPerUnit}, true)
            && plan.target2 == f.entry + 3.0 * plan.riskPerUnit
  {}

  /** A short plan the other way up. */
  lemma {:induction false} ShortPlanOnPrices(f: Frame, s: Settings)
    ensures var plan := PlanFor(f, Some(Short), s);
            && plan.entry == f.entry == plan.entryLow && plan.stop == StopPrice(f, Short, s)
            && plan.riskPerUnit == Abs(f.entry - plan.stop)
            && (s.stopMethod == SwingLevel ==>
                IsEnd(plan.stop, {f.defendedResistance, f.entry + 0.7 * f.range14}, true))
            && (s.stopMethod == AtrDistance ==> plan.stop - f.entry == f.range14 * s.atrStopMultiplier)
            && (s.stopMethod == FixedPercent ==>
                  100.0 * (plan.stop - f.entry) == f.entry * s.fixedStopPercent)
            && (plan.entryHigh == f.entry
                || IsEnd(plan.entryHigh, {f.resistance, f.entry + 1.1 * f.range14, plan.stop - 0.1 * f.range14}, false))
            && plan.entryHigh >= f.entry
            && IsEnd(plan.target1, {f.support, f.entry - 1.8 * plan.riskPerUnit}, false)
            && plan.target2 == f.entry - 3.0 * plan.riskPerUnit
  {}

  /** What a plan risks and quotes: the configured share of the account, sized over the risk of one unit, and the
      rewards over it to the hundredth. */
  lemma {:induction false} PlanOnAccount(f: Frame, side: Side, s: Settings)
    requires StopPrice(f, side, s) != f.entry
    ensures var plan := PlanFor(f, Some(side), s);
            && 100.0 * plan.maxDollarRisk == s.accountSize * s.maxRiskPercent
            && plan.positionSize == SizeFor(plan.maxDollarRisk, plan.riskPerUnit)
            && WithinHalf(plan.rewardRisk1, Abs(plan.target1 - plan.entry), plan.riskPerUnit, 100.0)
            && WithinHalf(plan.rewardRisk2, Abs(plan.target2 - plan.entry), plan.riskPerUnit, 100.0)
  {
    hide WithinHalf, StopPrice, RewardRisk, SizeFor;
    var plan := PlanFor(f, Some(side), s);
    QuotedReward(plan.target1, plan.entry, plan.riskPerUnit);
    QuotedReward(plan.target2, plan.entry, plan.riskPerUnit);
    HundredthOf(s.accountSize, s.maxRiskPercent);
  }

  lemma {:induction false} QuotedReward(target: real, entry: real, risk: real)
    requires risk > 0.0
    ensures WithinHalf(RewardRisk(target, entry, risk), Abs(target - entry), risk, 100.0)
  {
    QuotientWithinHalf(Abs(target - entry), risk, 100.0);
  }

  lemma {:induction false} HundredthOf(account: real, percent: real)
    ensures 100.0 * (account * (percent / 100.0)) == account * percent
  {
    assert percent / 100.0 * 100.0 == percent;
  }

  // ---------------------------------------------------------------- the size of a plan

  predicate CutsUnderHalf(x: real) { x - x.Floor as real < 0.5 }

  lemma {:induction false} HalfUpFloor(y: real)
    ensures (y + 0.5).Floor == if CutsUnderHalf(y) then y.Floor else y.Floor + 1
  {}

  lemma {:induction false} MillionthGap(x: real)
    ensures var gap := RoundHalfUp(x, 1000000.0) - x;
            -0.0000005 < gap <= 0.0000005 && (gap <= 0.0 <==> CutsUnderHalf(x * 1000000.0))
  {
    var y := x * 1000000.0;
    HalfUpFloor(y);
    var n := (y + 0.5).Floor as real;
    assert RoundHalfUp(x, 1000000.0) == n / 1000000.0;
    assert (n / 1000000.0 - x) * 1000000.0 == n - y;
  }

  lemma {:induction false} GapTimesRisk(gap: real, risk: real)
    requires risk > 0.0 && -0.0000005 < gap <= 0.0000005
    ensures -0.0000005 * risk < gap * risk <= 0.0000005 * risk
    ensures gap * risk <= 0.0 <==> gap <= 0.0
  {
    SignOf(0.0000005 - gap, risk);
    SignOf(-gap, risk);
    assert (gap + 0.0000005) * risk > 0.0;
  }

  lemma {:induction false} Excess(size: real, quotient: real, budget: real, risk: real)
    requires risk > 0.0 && quotient * risk == budget && -0.0000005 < size - quotient <= 0.0000005
    ensures -0.0000005 * risk < size * risk - budget <= 0.0000005 * risk
    ensures size * risk - budget <= 0.0 <==> size - quotient <= 0.0
  {
    var gap := size - quotient;
    GapTimesRisk(gap, risk);
    assert gap * risk == size * risk - budget;
  }

  /** The size is the budget at this risk, to the nearest millionth: what it risks may exceed the budget,
      by at most half a millionth of a unit's risk, and does so exactly when the cut-off part is a half or
      more. */
  lemma {:induction false} SizeNearBudget(budget: real, risk: real)
    requires risk > 0.0
    ensures var excess := SizeFor(budget, risk) * risk - budget;
            && -0.0000005 * risk < excess <= 0.0000005 * risk
            && (excess <= 0.0 <==> CutsUnderHalf(budget / risk * 1000000.0))
  {
    var quotient := budget / risk;
    assert quotient * risk == budget;
    MillionthGap(quotient);
    Excess(RoundHalfUp(quotient, 1000000.0), quotient, budget, risk);
  }

  /** The zero-size veto fires exactly when a unit's risk is none or more than two million budgets. */
  lemma {:induction false} SizeZeroIff(budget: real, risk: real)
    requires budget > 0.0 && risk >= 0.0
    ensures SizeFor(budget, risk) <= 0.0 <==> risk == 0.0 || risk > budget * 2000000.0
  {
    if risk > 0.0 {
      var quotient := budget / risk;
      assert quotient * risk == budget;
      var n := (quotient * 1000000.0 + 0.5).Floor;
      assert n >= 1 <==> quotient * 2000000.0 >= 1.0;
      SignOf(quotient * 2000000.0 - 1.0, risk);
      assert (quotient * 2000000.0 - 1.0) * risk == budget * 2000000.0 - risk;
    }
  }

  lemma {:induction false} SignOf(x: real, k: real)
    requires k > 0.0
    ensures x >= 0.0 <==> x * k >= 0.0
  {
    if x < 0.0 { assert (-x) * k > 0.0; } else { assert x * k >= 0.0; }
  }

  // ---------------------------------------------------------------- from the chart to the decision

  /** Settings under which every directional plan risks something: a budget, a positive stop distance and a
      demanded reward/risk the targets always reach. */
  predicate Workable(s: Settings) {
    && s.accountSize * (s.maxRiskPercent / 100.0) > 0.0 && s.minimumRewardRisk <= 1.8
    && match s.stopMethod
       case FixedPercent => s.fixedStopPercent > 0.0
       case AtrDistance => s.atrStopMultiplier > 0.0
       case SwingLevel => true
  }

  lemma {:induction false} DefaultsAreWorkable()
    ensures Workable(DEFAULT_SETTINGS)
  {}

  lemma {:induction false} PlanRisks(candles: seq<Candle>, pivots: seq<Pivot>, side: Side, s: Settings,
                                     live: Option<real>)
    requires EntryPrice(candles, live) > 0.0 && Workable(s)
    ensures var plan := BuildRiskPlan(candles, pivots, Some(side), s, live);
            && plan.riskPerUnit > 0.0 && plan.rewardRisk1 >= s.minimumRewardRisk
            && (plan.positionSize > 0.0 <==> plan.riskPerUnit <= plan.maxDollarRisk * 2000000.0)
  {
    hide Range14, NearestLevel;
    var f := FrameOf(candles, pivots, live);
    RangePositive(candles, f.entry);
    StopSideIff(f, side, s);
    PlanIsOrdered(f, side, s);
    hide StopPrice, RewardRisk;
    var plan := PlanFor(f, Some(side), s);
    SizeZeroIff(plan.maxDollarRisk, plan.riskPerUnit);
  }

  /** From candles and pivots to the decision: under workable settings the reward never vetoes, and a side is a
      candidate exactly when its setup stands at confidence 55 in a tape that is not choppy, with volume, nothing
      leaning against it or in its way, and one unit's risk within two million budgets. */
  lemma {:induction false} CandidateIff(raw: RawRead, candles: seq<Candle>, pivots: seq<Pivot>, s: Settings,
                                        live: Option<real>, side: Side)
    requires EntryPrice(candles, live) > 0.0 && Workable(s)
    requires var plan := BuildRiskPlan(candles, pivots, DecisionFromSetup(raw.setup), s, live);
             raw.rewardRiskOk == (plan.rewardRisk1 >= s.minimumRewardRisk)
             && raw.plan.positionSize == plan.positionSize
    ensures var plan := BuildRiskPlan(candles, pivots, Some(side), s, live);
            CandidateSide(EvaluateSignal(raw).decision) == Some(side)
            <==> && DecisionFromSetup(raw.setup) == Some(side) && raw.confidence >= 55 && raw.regime != Choppy
                 && RegimeLean(raw.regime) in {None, Some(side)} && StructureLean(raw.structure) in {None, Some(side)}
                 && raw.volumeOk && !raw.nearLevel && !raw.poolAhead && !raw.extended
                 && plan.riskPerUnit <= plan.maxDollarRisk * 2000000.0
  {
    hide BuildRiskPlan, EvaluateSignal, CandidateSide, RegimeLean, StructureLean;
    DecisionMeaning(raw, side);
    PlanRisks(candles, pivots, side, s, live);
  }
}
