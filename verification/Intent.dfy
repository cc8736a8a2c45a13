/** Per-objective verdicts (engine/smc/intent.py). The entry-location grade is an input: `extended` is
    None when no location could be read. */
module Intent {
  import opened Types
  import opened Structure
  import opened Horizons
  import opened Quant
  import opened Objectives
  import Liquidity
  import Poi
  import StructureFacts
  import TrendTransition
  import Zones

  datatype Verdict = Favored | Caution | Wait | Avoid

  function ContextTimeframe(intent: TradingIntent): Timeframe {
    match intent case Scalp => H1 case Intraday => H4 case SwingTrade => D1 case Position => W1
  }

  function ExecutionTimeframe(intent: TradingIntent): Timeframe {
    match intent case Scalp => M15 case Intraday => H1 case SwingTrade => H4 case Position => D1
  }

  /** Swing and position trades take their direction from the context timeframe. */
  predicate TrendHorizon(intent: TradingIntent) { intent in {SwingTrade, Position} }

  datatype PerpRead = PerpRead(crowded: TradeDirection, extreme: bool)

  datatype Assessment = Assessment(
    intent: TradingIntent, verdict: Verdict, direction: TradeDirection, isCounterTrend: bool, sizeMultiplier: real,
    confidence: int, contextBias: TradeDirection, executionBias: TradeDirection, execution: Evaluation,
    plan: Option<RiskPlan>, limitPlan: Option<Poi.AnticipatoryPlan>)

  // ---------------------------------------------------------------- plan scaling

  function JsRound(x: real): real { (x + 0.5).Floor as real }

  function Money(v: real, multiplier: real): real { JsRound(v * multiplier * 100.0) / 100.0 }

  function ScalePlan(plan: RiskPlan, multiplier: real): RiskPlan {
    if multiplier == 1.0 then plan
    else plan.(positionSize := JsRound(plan.positionSize * multiplier * 1000000.0) / 1000000.0,
               maxDollarRisk := Money(plan.maxDollarRisk, multiplier),
               maxDollarLoss := Money(plan.maxDollarLoss, multiplier),
               estimatedGain1 := Money(plan.estimatedGain1, multiplier),
               estimatedGain2 := Money(plan.estimatedGain2, multiplier))
  }

  /** On the grid of `1/scale`, the nearest to half of `whole`, a tie going up. */
  predicate Halves(half: real, whole: real, scale: real) {
    Whole(half * scale) && -1.0 < 2.0 * (half * scale) - whole * scale <= 1.0
  }

  function Half(whole: real, scale: real): real
    requires scale != 0.0
  {
    JsRound(whole * 0.5 * scale) / scale
  }

  predicate Whole(x: real) { x.Floor as real == x }

  /** Same trade at half the size: nothing but the size and the money it moves differs, the size halved to the
      millionth and the money to the cent. */
  ghost predicate HalfPlan(plan: RiskPlan, full: RiskPlan) {
    && plan.direction == full.direction && plan.entry == full.entry && plan.stop == full.stop
    && plan.target1 == full.target1 && plan.target2 == full.target2 && plan.invalidation == full.invalidation
    && Halves(plan.positionSize, full.positionSize, 1000000.0)
    && Halves(plan.maxDollarRisk, full.maxDollarRisk, 100.0) && Halves(plan.maxDollarLoss, full.maxDollarLoss, 100.0)
    && Halves(plan.estimatedGain1, full.estimatedGain1, 100.0)
    && Halves(plan.estimatedGain2, full.estimatedGain2, 100.0)
  }

  lemma {:induction false} HalvesIff(half: real, whole: real, scale: real)
    requires scale > 0.0
    ensures Halves(half, whole, scale) <==> half == Half(whole, scale)
  {
    var n := JsRound(whole * 0.5 * scale);
    NearestHalf(half * scale, whole * scale);
    hide JsRound, Whole;
    assert whole * 0.5 * scale == whole * scale / 2.0;
    SameStep(half, n, scale);
  }

  lemma {:induction false} NearestHalf(h: real, y: real)
    ensures Whole(h) && -1.0 < 2.0 * h - y <= 1.0 <==> h == JsRound(y / 2.0)
  {
    var k, z := h.Floor, y / 2.0 + 0.5;
    assert k as real == h && -1.0 < 2.0 * h - y <= 1.0 ==> k as real <= z < k as real + 1.0;
    FloorIs(k, z);
    FloorIs(k, h);
    assert z.Floor as real <= z < z.Floor as real + 1.0;
  }

  lemma {:induction false} SameStep(half: real, n: real, scale: real)
    requires scale > 0.0
    ensures half * scale == n <==> half == n / scale
  {
    assert n / scale * scale == n;
    assert (half - n / scale) * scale == half * scale - n;
  }

  lemma {:induction false} HalfScale(full: RiskPlan)
    ensures ScalePlan(full, 0.5)
            == full.(positionSize := Half(full.positionSize, 1000000.0),
                     maxDollarRisk := Half(full.maxDollarRisk, 100.0), maxDollarLoss := Half(full.maxDollarLoss, 100.0),
                     estimatedGain1 := Half(full.estimatedGain1, 100.0),
                     estimatedGain2 := Half(full.estimatedGain2, 100.0))
  {}

  /** The scaled plan is that one half plan. */
  lemma {:induction false} ScalePlanHalves(plan: RiskPlan, full: RiskPlan)
    ensures HalfPlan(plan, full) <==> plan == ScalePlan(full, 0.5)
  {
    hide Halves, Half, ScalePlan;
    HalfScale(full);
    HalvesIff(plan.positionSize, full.positionSize, 1000000.0);
    HalvesIff(plan.maxDollarRisk, full.maxDollarRisk, 100.0);
    HalvesIff(plan.maxDollarLoss, full.maxDollarLoss, 100.0);
    HalvesIff(plan.estimatedGain1, full.estimatedGain1, 100.0);
    HalvesIff(plan.estimatedGain2, full.estimatedGain2, 100.0);
  }

  /** Twice the half is the whole exactly when the whole is an even number of steps; an odd one is overshot by one
      step, and none is undershot. */
  lemma {:induction false} HalfIsExactIff(half: real, steps: int, scale: real)
    requires scale > 0.0 && Halves(half, steps as real / scale, scale)
    ensures 2.0 * half == (steps + steps % 2) as real / scale
    ensures 2.0 * half == steps as real / scale <==> steps % 2 == 0
  {
    assert steps as real / scale * scale == steps as real;
    var k := (half * scale).Floor;
    assert half * scale == k as real;
    assert -1.0 < (2 * k - steps) as real <= 1.0;
    assert 2 * k == steps + steps % 2;
    assert (steps + steps % 2) as real / scale == 2.0 * half by { assert 2.0 * half * scale == (2 * k) as real; }
    assert steps % 2 == 1 ==> (steps + 1) as real / scale == steps as real / scale + 1.0 / scale;
  }

  /** So at one step the half is the whole: such a caution plan is as large as the favored one. */
  lemma {:induction false} HalfCanBeFull(full: RiskPlan)
    requires full.positionSize == 0.000001 && full.maxDollarRisk == 0.01
    ensures var plan := ScalePlan(full, 0.5);
            plan.positionSize == full.positionSize && plan.maxDollarRisk == full.maxDollarRisk
  {}

  // ---------------------------------------------------------------- what the verdict reads

  function DirectionFor(intent: TradingIntent, ctx: Evaluation, exe: Evaluation): TradeDirection {
    if TrendHorizon(intent) then ctx.lean else if exe.lean != None then exe.lean else ctx.lean
  }

  predicate CounterTrend(direction: TradeDirection, ctx: Evaluation) {
    direction != None && ctx.lean != None && direction != ctx.lean
  }

  predicate Confirmed(direction: TradeDirection, exe: Evaluation) {
    (exe.decision == BuyCandidate && direction == Some(Long))
      || (exe.decision == ShortCandidate && direction == Some(Short))
  }

  /** The verdict before the liquidity and positioning overlays. */
  function BaseVerdict(intent: TradingIntent, ctx: Evaluation, exe: Evaluation, extended: Option<bool>): Verdict {
    var direction := DirectionFor(intent, ctx, exe);
    var confirmed := Confirmed(direction, exe);
    if direction == None then Avoid
    else if !TrendHorizon(intent) && exe.regime == LowVolatility && !confirmed then Avoid
    else if TrendHorizon(intent) && exe.lean != None && exe.lean != direction then Wait
    else if CounterTrend(direction, ctx) then
      if confirmed then Caution else if exe.confidence >= 45 then Wait else Avoid
    else if confirmed && extended == Some(true) then Wait
    else if confirmed then Favored
    else Wait
  }

  predicate Opposing(direction: TradeDirection, entry: real, pool: Liquidity.Pool) {
    direction.Some? && entry != 0.0 && pool.intact
    && if direction.value == Long then pool.side == Liquidity.Bsl && pool.price > entry
       else pool.side == Liquidity.Ssl && pool.price < entry
  }

  function NearLimit(ctx: Evaluation): real {
    Max(0.35, (if ctx.atrPercent.Some? then ctx.atrPercent.value else 1.0) * 0.55)
  }

  /** Some intact opposing pool of the context lies within reach of the entry. */
  predicate PoolInReach(direction: TradeDirection, ctx: Evaluation, entry: real) {
    exists k :: 0 <= k < |ctx.liquidity| && Opposing(direction, entry, ctx.liquidity[k])
      && Abs(ctx.liquidity[k].price - entry) / entry * 100.0 < NearLimit(ctx)
  }

  predicate CrowdedExtreme(direction: TradeDirection, perp: Option<PerpRead>) {
    perp.Some? && direction != None && perp.value.crowded == direction && perp.value.extreme
  }

  /** Each overlay trims a favored verdict to caution and touches nothing else. */
  function FinalVerdict(intent: TradingIntent, ctx: Evaluation, exe: Evaluation, extended: Option<bool>,
                        perp: Option<PerpRead>): Verdict {
    var direction := DirectionFor(intent, ctx, exe);
    var verdict := BaseVerdict(intent, ctx, exe, extended);
    if verdict == Favored && (PoolInReach(direction, ctx, exe.lastClose) || CrowdedExtreme(direction, perp))
      then Caution else verdict
  }

  predicate Actionable(verdict: Verdict) { verdict in {Favored, Caution} }

  /** The execution read's own limit plan when it maps this direction; otherwise one built at the close, on
      its objectives when those map the direction and on freshly resolved ones when not. */
  function LimitPlanFor(direction: TradeDirection, exe: Evaluation,
                        zones: seq<Zones.BaseZone>): Option<Poi.AnticipatoryPlan> {
    if direction == None || exe.lastClose == 0.0 then None
    else if exe.draw.plan.Some? && exe.draw.plan.value.direction == direction.value then exe.draw.plan
    else
      var objectives := if |exe.draw.objectives| > 0 && exe.draw.side == direction then exe.draw.objectives
                        else RankedDraws(exe.swings, exe.liquidity, direction.value, exe.lastClose);
      Poi.BuildPlan(zones, direction.value, exe.lastClose, exe.range, objectives)
  }

  function Assess(intent: TradingIntent, ctx: Evaluation, exe: Evaluation, extended: Option<bool>,
                  perp: Option<PerpRead>, zones: seq<Zones.BaseZone>): Assessment
  {
    var direction := DirectionFor(intent, ctx, exe);
    var verdict := FinalVerdict(intent, ctx, exe, extended, perp);
    var trimmed := BaseVerdict(intent, ctx, exe, extended) == Favored && verdict == Caution;
    var size := if CounterTrend(direction, ctx) || trimmed then 0.5 else 1.0;
    Assessment(intent, verdict, direction, CounterTrend(direction, ctx), size, exe.confidence, ctx.lean, exe.lean, exe,
               if Actionable(verdict) && direction != None && exe.risk.direction == direction
                 then Some(ScalePlan(exe.risk, size)) else None,
               LimitPlanFor(direction, exe, zones))
  }

  method VerdictBranches(intent: TradingIntent, ctx: Evaluation, exe: Evaluation, extended: Option<bool>,
                         direction: TradeDirection, isCounterTrend: bool)
    returns (verdict: Verdict)
    requires direction == DirectionFor(intent, ctx, exe) && isCounterTrend == CounterTrend(direction, ctx)
    ensures verdict == BaseVerdict(intent, ctx, exe, extended)
  {
    var trendHorizon := intent in {SwingTrade, Position};
    var exeBias := exe.lean;
    var confirmed := (exe.decision == BuyCandidate && direction == Some(Long))
      || (exe.decision == ShortCandidate && direction == Some(Short));
    if direction == None {
      verdict := Avoid;
    } else if !trendHorizon && exe.regime == LowVolatility && !confirmed {
      verdict := Avoid;
    } else if trendHorizon && exeBias != None && exeBias != direction {
      verdict := Wait;
    } else if isCounterTrend {
      if confirmed { verdict := Caution; } else if exe.confidence >= 45 { verdict := Wait; } else { verdict := Avoid; }
    } else if confirmed && extended == Some(true) {
      verdict := Wait;
    } else if confirmed {
      verdict := Favored;
    } else {
      verdict := Wait;
    }
  }

  method MapLimit(direction: TradeDirection, exe: Evaluation, zones: seq<Zones.BaseZone>)
    returns (limitPlan: Option<Poi.AnticipatoryPlan>)
    ensures limitPlan == LimitPlanFor(direction, exe, zones)
  {
    if direction == None || exe.lastClose == 0.0 {
      return None;
    }
    var side := direction.value;
    if exe.draw.plan.Some? && exe.draw.plan.value.direction == side {
      return exe.draw.plan;
    }
    var objectives := exe.draw.objectives;
    if |objectives| == 0 || exe.draw.side != direction {
      objectives := ResolveObjectives(exe.swings, exe.liquidity, side, exe.lastClose);
    }
    return Poi.BuildPlan(zones, side, exe.lastClose, exe.range, objectives);
  }

  method AssessIntent(intent: TradingIntent, ctx: Evaluation, exe: Evaluation, extended: Option<bool>,
                      perp: Option<PerpRead>, zones: seq<Zones.BaseZone>)
    returns (a: Assessment)
    ensures a == Assess(intent, ctx, exe, extended, perp, zones)
  {
    hide LimitPlanFor, ScalePlan;
    var ctxBias, exeBias := ctx.lean, exe.lean;
    var trendHorizon := intent in {SwingTrade, Position};
    var direction := if trendHorizon then ctxBias else if exeBias != None then exeBias else ctxBias;
    var isCounterTrend := direction != None && ctxBias != None && direction != ctxBias;
    var verdict := VerdictBranches(intent, ctx, exe, extended, direction, isCounterTrend);

    var htfPoolTrim := false;
    var entry := exe.lastClose;
    var htfPool := NearestOpposing(direction, ctx, entry);
    var proximate := htfPool.Some? && Abs(htfPool.value.price - entry) / entry * 100.0 < NearLimit(ctx);
    if proximate && verdict == Favored {
      verdict := Caution;
      htfPoolTrim := true;
    }
    var crowdedTrim := false;
    if perp.Some? && direction != None && perp.value.crowded != None {
      if perp.value.crowded == direction && perp.value.extreme && verdict == Favored {
        verdict := Caution;
        crowdedTrim := true;
      }
    }
    var size := if isCounterTrend || crowdedTrim || htfPoolTrim then 0.5 else 1.0;
    var plan := if verdict in {Favored, Caution} && direction != None && exe.risk.direction == direction
                then Some(ScalePlan(exe.risk, size)) else None;
    var limitPlan := MapLimit(direction, exe, zones);
    a := Assessment(intent, verdict, direction, isCounterTrend, size, exe.confidence, ctxBias, exeBias, exe, plan,
                    limitPlan);
  }

  /** The running-nearest scan; its distance test decides whether any pool is in reach. */
  method NearestOpposing(direction: TradeDirection, ctx: Evaluation, entry: real)
    returns (nearest: Option<Liquidity.Pool>)
    ensures nearest.Some? ==> Opposing(direction, entry, nearest.value)
    ensures (nearest.Some? && Abs(nearest.value.price - entry) / entry * 100.0 < NearLimit(ctx))
            <==> PoolInReach(direction, ctx, entry)
  {
    nearest := None;
    for k := 0 to |ctx.liquidity|
      invariant nearest.Some? ==> Opposing(direction, entry, nearest.value) && nearest.value in ctx.liquidity
      invariant forall j :: 0 <= j < k && Opposing(direction, entry, ctx.liquidity[j]) ==>
                  nearest.Some? && Abs(nearest.value.price - entry) <= Abs(ctx.liquidity[j].price - entry)
    {
      var pool := ctx.liquidity[k];
      if Opposing(direction, entry, pool) {
        if nearest == None || Abs(pool.price - entry) < Abs(nearest.value.price - entry) {
          nearest := Some(pool);
        }
      }
    }
    if PoolInReach(direction, ctx, entry) {
      var k :| 0 <= k < |ctx.liquidity| && Opposing(direction, entry, ctx.liquidity[k])
               && Abs(ctx.liquidity[k].price - entry) / entry * 100.0 < NearLimit(ctx);
      CloserInReach(entry, Abs(nearest.value.price - entry), Abs(ctx.liquidity[k].price - entry), NearLimit(ctx));
    }
  }

  lemma {:induction false} CloserInReach(entry: real, near: real, far: real, limit: real)
    requires entry != 0.0 && 0.0 <= near <= far && far / entry * 100.0 < limit && limit > 0.0
    ensures near / entry * 100.0 < limit
  {
    if entry > 0.0 {
      DivMonotone(near, far, entry);
    } else {
      assert near / entry <= 0.0;
    }
  }

  // ---------------------------------------------------------------- what a verdict means

  /** A verdict's plan and size, against the unscaled plan they come from. */
  ghost predicate SizedFrom(verdict: Verdict, direction: TradeDirection, size: real, plan: Option<RiskPlan>,
                            full: RiskPlan) {
    && (plan.Some? <==> Actionable(verdict))
    && (verdict == Favored ==> size == 1.0 && plan == Some(full))
    && (verdict == Caution ==> size == 0.5 && plan.Some? && HalfPlan(plan.value, full))
    && (plan.Some? ==> direction.Some? && full.direction == direction)
  }

  /** A raw assessment carries a plan exactly when its verdict is favored or caution; favored is the
      full plan and caution its half plan. */
  lemma {:induction false} AssessmentSized(intent: TradingIntent, ctx: Evaluation, exe: Evaluation,
                                           extended: Option<bool>, perp: Option<PerpRead>, zones: seq<Zones.BaseZone>)
    requires CandidateAgrees(exe)
    ensures var a := Assess(intent, ctx, exe, extended, perp, zones);
            SizedFrom(a.verdict, a.direction, a.sizeMultiplier, a.plan, exe.risk)
  {
    hide LimitPlanFor, ScalePlan, HalfPlan;
    ScalePlanHalves(ScalePlan(exe.risk, 0.5), exe.risk);
    FullScale(exe.risk);
  }

  lemma {:induction false} FullScale(full: RiskPlan)
    ensures ScalePlan(full, 1.0) == full
  {}

  /** Favored, in full: the trigger is confirmed, nothing in the context leans against it, price is not
      extended, no opposing pool is in reach and the crowd is not extreme on the same side. */
  lemma {:induction false} FavoredMeaning(intent: TradingIntent, ctx: Evaluation, exe: Evaluation,
                                          extended: Option<bool>, perp: Option<PerpRead>)
    requires CandidateAgrees(exe)
    ensures var direction, verdict := DirectionFor(intent, ctx, exe), FinalVerdict(intent, ctx, exe, extended, perp);
            && (verdict == Favored
                <==> && direction.Some? && Confirmed(direction, exe)
                     && ctx.lean in {None, direction}
                     && extended != Some(true)
                     && !PoolInReach(direction, ctx, exe.lastClose) && !CrowdedExtreme(direction, perp))
            && (verdict == Favored ==> exe.lean == direction)
  {}

  /** Caution, in full: a confirmed trigger either against the context's lean, or with the lean and not
      extended but running into a pool or an extreme crowd. */
  lemma {:induction false} CautionMeaning(intent: TradingIntent, ctx: Evaluation, exe: Evaluation,
                                          extended: Option<bool>, perp: Option<PerpRead>)
    requires CandidateAgrees(exe)
    ensures var direction := DirectionFor(intent, ctx, exe);
            FinalVerdict(intent, ctx, exe, extended, perp) == Caution
            <==> && direction.Some? && Confirmed(direction, exe)
                 && (|| ctx.lean !in {None, direction}
                     || (extended != Some(true) && (PoolInReach(direction, ctx, exe.lastClose)
                                                    || CrowdedExtreme(direction, perp))))
  {}

  /** How near a pool of the context must lie, in percent of the entry: 55% of its ATR, one percent when that is not
      known, and never under 0.35. */
  function Reach(atrPercent: Option<real>): real {
    match atrPercent case None => 0.55 case Some(atr) => if atr * 0.55 < 0.35 then 0.35 else atr * 0.55
  }

  /** An untaken pool ahead of the entry, within reach: highs for a long, lows for a short. */
  ghost predicate BlocksEntry(pool: Liquidity.Pool, side: Side, entry: real, reach: real) {
    && pool.intact
    && match side
       case Long => pool.side == Liquidity.Bsl && pool.price > entry && (pool.price - entry) * 100.0 < reach * entry
       case Short => pool.side == Liquidity.Ssl && pool.price < entry && (entry - pool.price) * 100.0 < reach * entry
  }

  lemma {:induction false} PercentWithin(distance: real, entry: real, limit: real)
    requires entry > 0.0
    ensures distance / entry * 100.0 < limit <==> distance * 100.0 < limit * entry
  {
    var share := distance / entry;
    assert share * entry == distance;
    assert (limit - share * 100.0) * entry == limit * entry - distance * 100.0;
    if share * 100.0 < limit { assert (limit - share * 100.0) * entry > 0.0; }
  }

  lemma {:induction false} BlocksIff(pool: Liquidity.Pool, side: Side, ctx: Evaluation, entry: real)
    requires entry > 0.0
    ensures BlocksEntry(pool, side, entry, Reach(ctx.atrPercent))
            <==> Opposing(Some(side), entry, pool) && Abs(pool.price - entry) / entry * 100.0 < NearLimit(ctx)
  {
    PercentWithin(Abs(pool.price - entry), entry, NearLimit(ctx));
    assert Reach(ctx.atrPercent) == NearLimit(ctx);
    hide Reach, NearLimit;
  }

  lemma {:induction false} ReachOnPools(side: Side, ctx: Evaluation, entry: real)
    requires entry > 0.0
    ensures PoolInReach(Some(side), ctx, entry)
            <==> exists pool :: pool in ctx.liquidity && BlocksEntry(pool, side, entry, Reach(ctx.atrPercent))
  {
    forall pool ensures BlocksEntry(pool, side, entry, Reach(ctx.atrPercent))
      <==> Opposing(Some(side), entry, pool) && Abs(pool.price - entry) / entry * 100.0 < NearLimit(ctx) {
      BlocksIff(pool, side, ctx, entry);
    }
    hide BlocksEntry, Opposing, NearLimit, Reach;
    if PoolInReach(Some(side), ctx, entry) {
      var k :| 0 <= k < |ctx.liquidity| && Opposing(Some(side), entry, ctx.liquidity[k])
               && Abs(ctx.liquidity[k].price - entry) / entry * 100.0 < NearLimit(ctx);
      assert ctx.liquidity[k] in ctx.liquidity;
    }
  }

  /** Favored on a side, in the reads: the execution timeframe is a candidate on it, a swing or position trade has the
      context behind it and a shorter one not against it, price is not extended, no pool of the context blocks the
      entry, and the crowd is not there already at an extreme. */
  lemma {:induction false} FavoredOnReads(intent: TradingIntent, ctx: Evaluation, exe: Evaluation,
                                          extended: Option<bool>, perp: Option<PerpRead>, side: Side)
    requires CandidateAgrees(exe) && exe.lastClose > 0.0
    ensures FinalVerdict(intent, ctx, exe, extended, perp) == Favored && DirectionFor(intent, ctx, exe) == Some(side)
            <==> && exe.decision == (match side case Long => BuyCandidate case Short => ShortCandidate)
                 && (ctx.lean == Some(side) || (ctx.lean == None && intent != SwingTrade && intent != Position))
                 && extended != Some(true) && !(perp.Some? && perp.value.extreme && perp.value.crowded == Some(side))
                 && forall pool :: pool in ctx.liquidity ==>
                      !BlocksEntry(pool, side, exe.lastClose, Reach(ctx.atrPercent))
  {
    FavoredMeaning(intent, ctx, exe, extended, perp);
    ReachOnPools(side, ctx, exe.lastClose);
    hide FinalVerdict, PoolInReach, BlocksEntry, Reach;
  }

  /** What an assessment carries of its reads: each timeframe's lean in its own place, the execution's confidence and
      read, and against the context exactly when both name a side and the sides differ. */
  lemma {:induction false} AssessmentOnReads(intent: TradingIntent, ctx: Evaluation, exe: Evaluation,
                                             extended: Option<bool>, perp: Option<PerpRead>, zones: seq<Zones.BaseZone>)
    ensures var a := Assess(intent, ctx, exe, extended, perp, zones);
            && a.intent == intent && a.contextBias == ctx.lean && a.executionBias == exe.lean
            && a.confidence == exe.confidence && a.execution == exe
            && (a.isCounterTrend <==> a.direction.Some? && ctx.lean.Some? && a.direction.value != ctx.lean.value)
            && (a.plan.Some?
                <==> a.verdict in {Favored, Caution} && a.direction.Some? && exe.risk.direction == a.direction)
  {
    hide FinalVerdict, BaseVerdict, LimitPlanFor, ScalePlan;
  }

  /** A long horizon waits while its execution timeframe leans the other way, and is not held up by one that does not
      lean. */
  lemma {:induction false} LongHorizonWaits(intent: TradingIntent, ctx: Evaluation, exe: Evaluation,
                                            extended: Option<bool>, perp: Option<PerpRead>)
    requires intent in {SwingTrade, Position} && ctx.lean.Some?
    ensures exe.lean == Some(Opposite(ctx.lean.value)) ==> FinalVerdict(intent, ctx, exe, extended, perp) == Wait
    ensures exe.lean == None && Confirmed(ctx.lean, exe) && extended != Some(true) ==>
              FinalVerdict(intent, ctx, exe, extended, perp) in {Favored, Caution}
  {
    hide PoolInReach;
  }

  /** A read that mapped nothing is mapped afresh at the close. */
  lemma {:induction false} NothingReadMapsAfresh(side: Side, exe: Evaluation, zones: seq<Zones.BaseZone>)
    requires exe.draw.plan == None && exe.draw.objectives == [] && exe.lastClose != 0.0
    ensures LimitPlanFor(Some(side), exe, zones)
            == Poi.BuildPlan(zones, side, exe.lastClose, exe.range,
                             RankedDraws(exe.swings, exe.liquidity, side, exe.lastClose))
  {}

  /** A swing or position trade is led by its context alone; a shorter one by its own timeframe while that leans. */
  lemma {:induction false} DirectionMeaning(intent: TradingIntent, ctx: Evaluation, exe: Evaluation, side: Side)
    ensures DirectionFor(intent, ctx, exe) == Some(side)
            <==> match intent
                 case SwingTrade => ctx.lean == Some(side)
                 case Position => ctx.lean == Some(side)
                 case _ => exe.lean == Some(side) || (exe.lean == None && ctx.lean == Some(side))
  {}

  /** The context is always read on bars at least four times as long as the execution's. */
  lemma {:induction false} ContextIsCoarser(intent: TradingIntent)
    ensures StepSeconds(ContextTimeframe(intent)) >= 4 * StepSeconds(ExecutionTimeframe(intent))
  {}

  /** Avoid, in full: nobody leans, or a short-horizon trigger is unconfirmed in a dead tape or, at low
      confidence, against the context. A swing or position trade with a trend is never avoided. */
  lemma {:induction false} AvoidMeaning(intent: TradingIntent, ctx: Evaluation, exe: Evaluation, extended: Option<bool>,
                                        perp: Option<PerpRead>)
    ensures FinalVerdict(intent, ctx, exe, extended, perp) == Avoid
            <==> || (ctx.lean == None && (TrendHorizon(intent) || exe.lean == None))
                 || (&& !TrendHorizon(intent) && !Confirmed(DirectionFor(intent, ctx, exe), exe)
                     && (exe.regime == LowVolatility
                         || (None !in {ctx.lean, exe.lean} && ctx.lean != exe.lean && exe.confidence < 45)))
  {}

  /** A limit plan always has sound geometry and trades the assessment's own direction, at whatever prices
      its objectives and its zone were read. */
  lemma {:induction false} LimitPlanSound(direction: TradeDirection, exe: Evaluation, zones: seq<Zones.BaseZone>)
    requires exe.draw.plan.Some? ==> Poi.SoundGeometry(exe.draw.plan.value)
    ensures var plan := LimitPlanFor(direction, exe, zones);
            plan.Some? ==> Poi.SoundGeometry(plan.value) && direction == Some(plan.value.direction)
  {
    if direction.Some? {
      var objectives := if |exe.draw.objectives| > 0 && exe.draw.side == direction then exe.draw.objectives
                        else RankedDraws(exe.swings, exe.liquidity, direction.value, exe.lastClose);
      Poi.PlanIsSound(zones, direction.value, exe.lastClose, exe.range, objectives);
    }
  }

  /** Reuse shows only when prices differ: read at the close itself, the mapped plan is the one built from scratch
      there, whichever of the three was taken. */
  lemma {:induction false} ReuseIsFresh(raw: RawRead, side: Side)
    requires raw.positionPrice == Some(raw.lastClose) && raw.lastClose != 0.0
    ensures LimitPlanFor(Some(side), EvaluateSignal(raw), raw.zones)
            == Poi.BuildPlan(raw.zones, side, raw.lastClose, raw.range,
                             RankedDraws(raw.structure.swings, raw.liquidity, side, raw.lastClose))
  {
    hide RankedDraws, Poi.BuildPlan, Decide, NoTradeReasons, DirectionalLean;
    ReadPlanSound(raw);
  }

  // ---------------------------------------------------------------- one plan across two prices

  const UNSIZED := RiskPlan(None, 95.0, 95.0, 95.0, 95.0, 95.0, 0.0, 750.0, 0.0, 0.0, 0.0)

  /** A rising tape whose only swing is a high at `price`: live at 95, last closed at 100, over a demand zone. */
  function DipRead(price: real): RawRead {
    RawRead(NoClearSetup, TrendingUp, StructureOf([Pivot(0, price, High)], EQUAL_LEVEL_TOLERANCE), 30, false, false,
            false, true, false, UNSIZED, 100.0, None, None, None, [], [Poi.PULLBACK_ZONE], None, Some(95.0))
  }

  lemma {:induction false} OneHigh(price: real)
    ensures var ms := StructureOf([Pivot(0, price, High)], EQUAL_LEVEL_TOLERANCE);
            && |ms.swings| == 1 && ms.swings[0].kind == High && ms.swings[0].price == price
            && StructureLean(ms) == None
  {
    var p := [Pivot(0, price, High)];
    assert p[..0] == [] && Legs([]) == [];
    assert Legs(p) == p;
    hide Legs;
    TrendTransition.StructureTrend(p, EQUAL_LEVEL_TOLERANCE);
    StructureFacts.SwingShape(p, EQUAL_LEVEL_TOLERANCE, 0);
  }

  /** The objective is resolved at the live price and reused at the close: a high at 97 is past the one but short
      of the zone there, and no plan is mapped; one at 105 maps a long limit at 98, above the live price. */
  lemma {:induction false} PlanAcrossPrices()
    ensures var near := EvaluateSignal(DipRead(97.0));
            && |near.draw.objectives| == 1 && near.draw.objectives[0].price == 97.0
            && LimitPlanFor(Some(Long), near, [Poi.PULLBACK_ZONE]) == None
    ensures var plan := LimitPlanFor(Some(Long), EvaluateSignal(DipRead(105.0)), [Poi.PULLBACK_ZONE]);
            plan.Some? && plan.value.entry == 98.0
  {
    DipPlan(97.0);
    DipPlan(105.0);
  }

  lemma {:induction false} DipPlan(price: real)
    requires price > 95.0
    ensures var exe := EvaluateSignal(DipRead(price));
            var plan := LimitPlanFor(Some(Long), exe, [Poi.PULLBACK_ZONE]);
            && |exe.draw.objectives| == 1 && exe.draw.objectives[0].price == price
            && (plan.Some? <==> price > 98.0) && (plan.Some? ==> plan.value.entry == 98.0)
  {
    OneHigh(price);
    hide StructureOf, StructureLean, RankedDraws, Poi.BuildPlan, Decide, NoTradeReasons;
    var raw := DipRead(price);
    OneDraw(raw.structure.swings, Long, 95.0);
    Poi.PullbackPlan(RankedDraws(raw.structure.swings, [], Long, 95.0));
  }
}
