/** The decision logic of one timeframe (engine/smc/quant.py). Setup and regime classification, the
    component scores and the price arithmetic of the risk plan are inputs here. */
module Quant {
  import opened Types
  import opened Structure
  import Liquidity
  import opened Objectives
  import Poi
  import Zones
  import StructureFacts
  import TrendTransition

  datatype SetupType = Breakout | FailedBreakout | PullbackContinuation | VwapReclaim | LowerHighRejection
    | HigherLowContinuation | CapitulationReversal | RangeCompression | TrendlineBreak | RetestEntry
    | ExhaustionMove | NoClearSetup

  datatype MarketRegime = TrendingUp | TrendingDown | RangeBound | HighVolatility | LowVolatility
    | BreakoutCompression | MeanReversion | Choppy

  datatype TradeDecision = BuyCandidate | ShortCandidate | WaitDecision | NoTrade | Invalidated

  function DecisionFromSetup(setup: SetupType): TradeDirection {
    if setup in {FailedBreakout, LowerHighRejection} then Some(Short)
    else if setup in {Breakout, PullbackContinuation, HigherLowContinuation, VwapReclaim, RetestEntry,
                       CapitulationReversal}
    then Some(Long)
    else None
  }

  // ---------------------------------------------------------------- leans

  /** The trend when there is one; in a range, the latest break while its swing is still the latest of
      its kind. */
  function StructureLean(ms: MarketStructure): TradeDirection {
    if ms.trend == Uptrend then Some(Long)
    else if ms.trend == Downtrend then Some(Short)
    else if ms.eventSwing.Some? && (ms.eventSwing == ms.lastHigh || ms.eventSwing == ms.lastLow)
      && ms.eventSwing.value < |ms.swings| then
      if ms.swings[ms.eventSwing.value].mark == Some(HH) then Some(Long)
      else if ms.swings[ms.eventSwing.value].mark == Some(LL) then Some(Short) else None
    else None
  }

  function RegimeLean(regime: MarketRegime): TradeDirection {
    if regime == TrendingUp then Some(Long) else if regime == TrendingDown then Some(Short) else None
  }

  function Opposite(side: Side): Side { if side == Long then Short else Long }

  function DirectionalLean(direction: TradeDirection, regimeLean: TradeDirection,
                           structLean: TradeDirection): TradeDirection {
    var fights := direction != None
      && ((regimeLean != None && regimeLean != direction) || (structLean != None && structLean != direction));
    if direction != None && !fights then direction
    else if regimeLean == structLean then regimeLean
    else if regimeLean == None then structLean
    else if structLean == None then regimeLean
    else None
  }

  /** A timeframe leans to a side exactly when the setup, the regime or the structure names it and
      neither the regime nor the structure names the other. */
  lemma {:induction false} LeanMeaning(direction: TradeDirection, regimeLean: TradeDirection,
                                       structLean: TradeDirection, side: Side)
    ensures DirectionalLean(direction, regimeLean, structLean) == Some(side)
            <==> Some(side) in {direction, regimeLean, structLean} && Some(Opposite(side)) !in {regimeLean, structLean}
  {
    OneOfThree(direction, side);
    OneOfThree(regimeLean, side);
    OneOfThree(structLean, side);
  }

  lemma {:induction false} OneOfThree(d: TradeDirection, side: Side)
    ensures d == None || d == Some(side) || d == Some(Opposite(side))
  {
    if d.Some? && d.value != side { assert d.value == Opposite(side); }
  }

  /** A break leans the structure its own way at once, a CHoCH as much as a BOS: the CHoCH leaves a range,
      but its swing is still the latest of its kind. */
  lemma {:induction false} FreshBreakLeans(p: seq<Pivot>, tolerance: real)
    requires var swings := StructureOf(p, tolerance).swings; |swings| > 0 && swings[|swings| - 1].event.Some?
    ensures var ms := StructureOf(p, tolerance);
            var last := ms.swings[|ms.swings| - 1];
            && last.mark in {Some(HH), Some(LL)}
            && StructureLean(ms) == Some(if last.mark == Some(HH) then Long else Short)
  {
    var legs, n := Legs(p), |Legs(p)|;
    TrendTransition.StructureTrend(p, tolerance);
    StructureFacts.SwingShape(p, tolerance, n - 1);
    LegsAlternate(p);
    LastTwoKinds(legs, n);
    BreakAgrees(legs, n - 1);
  }

  /** After a break the trend is its direction or none. */
  lemma {:induction false} BreakAgrees(legs: seq<Pivot>, i: nat)
    requires Alternating(legs) && i < |legs| && EventAt(legs, i).Some?
    ensures LabelAt(legs, i) in {Some(HH), Some(LL)}
    ensures TrendAfter(legs, i + 1) in {Range, if LabelAt(legs, i) == Some(HH) then Uptrend else Downtrend}
  {
    if i > 0 { assert legs[i].kind != legs[i - 1].kind; }
  }

  predicate Broke(legs: seq<Pivot>, i: int) { 0 <= i < |legs| && EventAt(legs, i).Some? }

  /** The way a break went: a high broke up, a low broke down. */
  function BreakWay(legs: seq<Pivot>, i: nat): TradeDirection
    requires i < |legs|
  {
    if legs[i].kind == High then Some(Long) else Some(Short)
  }

  lemma {:induction false} BreakMark(legs: seq<Pivot>, i: nat)
    requires Broke(legs, i)
    ensures LabelAt(legs, i) == Some(if legs[i].kind == High then HH else LL)
  {}

  /** In a range a structure leans exactly while one of its last two legs is a break, the later of them its own way;
      an earlier break has a later swing of its kind and leans no more. */
  lemma {:induction false} RangeLeanIff(p: seq<Pivot>, tolerance: real)
    requires StructureOf(p, tolerance).trend == Range
    ensures var legs, n, lean := Legs(p), |Legs(p)|, StructureLean(StructureOf(p, tolerance));
            && (lean == None <==> !Broke(legs, n - 1) && !Broke(legs, n - 2))
            && (Broke(legs, n - 1) ==> lean == BreakWay(legs, n - 1))
            && (!Broke(legs, n - 1) && Broke(legs, n - 2) ==> lean == BreakWay(legs, n - 2))
  {
    hide StructureOf, Legs, StructureLean, Broke, LastSwingsKnown;
    var legs := Legs(p);
    LegsAlternate(p);
    LastSwingsOf(p, tolerance);
    LeanFrom(StructureOf(p, tolerance), legs, if |legs| > 1 then LastBreak(legs, |legs| - 2) else None);
  }

  ghost predicate MarkedBreak(ms: MarketStructure, legs: seq<Pivot>, i: int)
    requires |ms.swings| == |legs|
  {
    Broke(legs, i) ==> ms.swings[i].mark == Some(if legs[i].kind == High then HH else LL)
  }

  /** Where the last swing of each kind and the last break are; `older` is the break before the last two legs. */
  ghost predicate LastSwingsKnown(ms: MarketStructure, legs: seq<Pivot>, older: Option<nat>) {
    var n := |legs|;
    && |ms.swings| == n && MarkedBreak(ms, legs, n - 1) && MarkedBreak(ms, legs, n - 2)
    && (older.Some? ==> older.value + 2 < n)
    && ms.lastHigh == (if n > 0 && legs[n - 1].kind == High then Some(n - 1) else if n > 1 then Some(n - 2) else None)
    && ms.lastLow == (if n > 0 && legs[n - 1].kind == Low then Some(n - 1) else if n > 1 then Some(n - 2) else None)
    && ms.eventSwing == if Broke(legs, n - 1) then Some(n - 1) else if Broke(legs, n - 2) then Some(n - 2) else older
  }

  lemma {:induction false} LastSwingsOf(p: seq<Pivot>, tolerance: real)
    ensures var legs := Legs(p);
            LastSwingsKnown(StructureOf(p, tolerance), legs, if |legs| > 1 then LastBreak(legs, |legs| - 2) else None)
  {
    hide StructureOf, Legs, LastBreak, Broke, MarkedBreak;
    LastHighLow(p, tolerance);
    LastBreakOf(p, tolerance);
    BreaksMarked(p, tolerance, |Legs(p)| - 1);
    BreaksMarked(p, tolerance, |Legs(p)| - 2);
  }

  lemma {:induction false} LastHighLow(p: seq<Pivot>, tolerance: real)
    ensures var ms, legs, n := StructureOf(p, tolerance), Legs(p), |Legs(p)|;
            && (ms.lastHigh
                == if n > 0 && legs[n - 1].kind == High then Some(n - 1) else if n > 1 then Some(n - 2) else None)
            && (ms.lastLow
                == if n > 0 && legs[n - 1].kind == Low then Some(n - 1) else if n > 1 then Some(n - 2) else None)
  {
    LegsAlternate(p);
    LeanParts(p, tolerance);
    hide StructureOf, Legs, LastOfKind;
    LastTwoKinds(Legs(p), |Legs(p)|);
  }

  lemma {:induction false} LastBreakOf(p: seq<Pivot>, tolerance: real)
    ensures var legs, n := Legs(p), |Legs(p)|; var older := if n > 1 then LastBreak(legs, n - 2) else None;
            && (StructureOf(p, tolerance).eventSwing
                == if Broke(legs, n - 1) then Some(n - 1) else if Broke(legs, n - 2) then Some(n - 2) else older)
            && (older.Some? ==> older.value + 2 < n)
  {
    LeanParts(p, tolerance);
    hide StructureOf, Legs, LastBreak, EventAt;
    LastTwoBreaks(Legs(p), |Legs(p)|);
  }

  lemma {:induction false} BreaksMarked(p: seq<Pivot>, tolerance: real, i: int)
    ensures |StructureOf(p, tolerance).swings| == |Legs(p)| && MarkedBreak(StructureOf(p, tolerance), Legs(p), i)
  {
    LeanParts(p, tolerance);
    hide StructureOf, Legs, EventAt;
    if Broke(Legs(p), i) { BrokenSwing(p, tolerance, i); }
  }

  lemma {:induction false} BrokenSwing(p: seq<Pivot>, tolerance: real, i: nat)
    requires Broke(Legs(p), i)
    ensures |StructureOf(p, tolerance).swings| == |Legs(p)|
    ensures StructureOf(p, tolerance).swings[i].mark == Some(if Legs(p)[i].kind == High then HH else LL)
  {
    hide StructureOf, Legs;
    StructureFacts.SwingShape(p, tolerance, i);
    BreakMark(Legs(p), i);
  }

  lemma {:induction false} LeanFrom(ms: MarketStructure, legs: seq<Pivot>, older: Option<nat>)
    requires Alternating(legs) && ms.trend == Range && LastSwingsKnown(ms, legs, older)
    ensures var n, lean := |legs|, StructureLean(ms);
            && (lean == None <==> !Broke(legs, n - 1) && !Broke(legs, n - 2))
            && (Broke(legs, n - 1) ==> lean == BreakWay(legs, n - 1))
            && (!Broke(legs, n - 1) && Broke(legs, n - 2) ==> lean == BreakWay(legs, n - 2))
  {
    hide EventAt;
    var n := |legs|;
    assert n > 1 ==> legs[n - 1].kind != legs[n - 2].kind;
  }

  lemma {:induction false} LeanParts(p: seq<Pivot>, tolerance: real)
    ensures var ms, legs := StructureOf(p, tolerance), Legs(p);
            && |ms.swings| == |legs| && ms.eventSwing == LastBreak(legs, |legs|)
            && ms.lastHigh == LastOfKind(legs, High, |legs|) && ms.lastLow == LastOfKind(legs, Low, |legs|)
  {}

  lemma {:induction false} LastTwoBreaks(legs: seq<Pivot>, n: nat)
    requires n <= |legs|
    ensures LastBreak(legs, n) == if n > 0 && Broke(legs, n - 1) then Some(n - 1)
                                  else if n > 1 && Broke(legs, n - 2) then Some(n - 2)
                                  else if n > 1 then LastBreak(legs, n - 2) else None
  {
    if n > 1 { assert LastBreak(legs, n - 1) == if Broke(legs, n - 2) then Some(n - 2) else LastBreak(legs, n - 2); }
  }

  // ---------------------------------------------------------------- the decision

  datatype RiskPlan = RiskPlan(direction: TradeDirection, entry: real, stop: real, target1: real, target2: real,
                               invalidation: real, positionSize: real, maxDollarRisk: real, maxDollarLoss: real,
                               estimatedGain1: real, estimatedGain2: real)

  datatype Reason = NoSetup | ChoppyRegime | AgainstRegime | FightsStructure | RewardRiskLow | NearLevel
    | PoolAhead | VolumeMissing | OverExtended | SizeZero

  /** The reads of one timeframe the decision is taken from. */
  datatype RawRead = RawRead(
    setup: SetupType, regime: MarketRegime, structure: MarketStructure, confidence: int,
    rewardRiskOk: bool, nearLevel: bool, poolAhead: bool, volumeOk: bool, extended: bool, plan: RiskPlan,
    lastClose: real, atrPercent: Option<real>, support: Option<real>, resistance: Option<real>,
    liquidity: seq<Liquidity.Pool>, zones: seq<Zones.BaseZone>, range: Option<real>, positionPrice: Option<real>)

  /** The draw on liquidity of one side: the objectives it resolves to and the limit plan built on them. */
  datatype DrawRead = DrawRead(side: TradeDirection, objectives: seq<Candidate>, plan: Option<Poi.AnticipatoryPlan>)

  datatype Evaluation = Evaluation(
    setup: SetupType, regime: MarketRegime, direction: TradeDirection, decision: TradeDecision, lean: TradeDirection,
    confidence: int, risk: RiskPlan, lastClose: real, atrPercent: Option<real>, support: Option<real>,
    resistance: Option<real>, liquidity: seq<Liquidity.Pool>, swings: seq<Swing>, range: Option<real>, draw: DrawRead)

  function When(holds: bool, reason: Reason): seq<Reason> { if holds then [reason] else [] }

  /** Everything that vetoes the trade, in reporting order. */
  function NoTradeReasons(raw: RawRead): seq<Reason> {
    var direction, structLean := DecisionFromSetup(raw.setup), StructureLean(raw.structure);
    When(raw.setup == NoClearSetup, NoSetup)
    + When(raw.regime == Choppy, ChoppyRegime)
    + When((direction == Some(Long) && raw.regime == TrendingDown)
           || (direction == Some(Short) && raw.regime == TrendingUp), AgainstRegime)
    + When(direction != None && structLean != None && structLean != direction, FightsStructure)
    + When(!raw.rewardRiskOk && direction != None, RewardRiskLow)
    + When(raw.nearLevel, NearLevel)
    + When(raw.poolAhead, PoolAhead)
    + When(!raw.volumeOk, VolumeMissing)
    + When(raw.extended, OverExtended)
    + When(raw.plan.positionSize <= 0.0 && direction != None, SizeZero)
  }

  function Decide(setup: SetupType, direction: TradeDirection, confidence: int, reasons: seq<Reason>): TradeDecision {
    if (setup == FailedBreakout || direction == Some(Short)) && confidence >= 55 && reasons == [] then ShortCandidate
    else if direction == Some(Long) && confidence >= 55 && reasons == [] then BuyCandidate
    else if reasons != [] then (if setup == FailedBreakout then Invalidated else NoTrade)
    else WaitDecision
  }

  /** Read at the position price for the setup's side, else for the side the lean still names. */
  function ReadDraw(raw: RawRead, direction: TradeDirection, lean: TradeDirection): DrawRead {
    var side := if direction != None then direction else lean;
    if side == None || raw.positionPrice == None then DrawRead(side, [], None)
    else
      var objectives := RankedDraws(raw.structure.swings, raw.liquidity, side.value, raw.positionPrice.value);
      DrawRead(side, objectives, Poi.BuildPlan(raw.zones, side.value, raw.positionPrice.value, raw.range, objectives))
  }

  function EvaluateSignal(raw: RawRead): Evaluation {
    var direction := DecisionFromSetup(raw.setup);
    var lean := DirectionalLean(direction, RegimeLean(raw.regime), StructureLean(raw.structure));
    Evaluation(raw.setup, raw.regime, direction, Decide(raw.setup, direction, raw.confidence, NoTradeReasons(raw)),
               lean, raw.confidence, raw.plan.(direction := direction), raw.lastClose, raw.atrPercent, raw.support,
               raw.resistance, raw.liquidity, raw.structure.swings, raw.range, ReadDraw(raw, direction, lean))
  }

  /** The side a candidate decision trades. */
  function CandidateSide(decision: TradeDecision): TradeDirection {
    if decision == BuyCandidate then Some(Long) else if decision == ShortCandidate then Some(Short) else None
  }

  /** Everything a directional setup must not meet, in terms of the reads alone. */
  predicate Clear(raw: RawRead, side: Side) {
    && raw.regime != Choppy && RegimeLean(raw.regime) in {None, Some(side)}
       && StructureLean(raw.structure) in {None, Some(side)}
    && raw.rewardRiskOk && raw.volumeOk && raw.plan.positionSize > 0.0
    && !raw.nearLevel && !raw.poolAhead && !raw.extended
  }

  lemma {:induction false} NothingVetoesIff(raw: RawRead, side: Side)
    requires DecisionFromSetup(raw.setup) == Some(side)
    ensures NoTradeReasons(raw) == [] <==> Clear(raw, side)
  {
    OneOfThree(StructureLean(raw.structure), side);
  }

  /** A side is a candidate exactly when the setup names it, confidence reaches 55 and the reads are clear: no
      choppy tape, neither regime nor structure against it, reward, volume and size there, and no level,
      pool or extension in the way. A directional setup that is not clear is never left waiting. */
  lemma {:induction false} DecisionMeaning(raw: RawRead, side: Side)
    ensures var e := EvaluateSignal(raw);
            && (CandidateSide(e.decision) == Some(side)
                <==> DecisionFromSetup(raw.setup) == Some(side) && raw.confidence >= 55 && Clear(raw, side))
            && (DecisionFromSetup(raw.setup) == Some(side) ==>
                (e.decision == WaitDecision <==> raw.confidence < 55 && Clear(raw, side)))
  {
    hide ReadDraw;
    if DecisionFromSetup(raw.setup) == Some(side) { NothingVetoesIff(raw, side); }
  }

  /** The limit plan a timeframe carries has sound geometry. */
  lemma {:induction false} ReadPlanSound(raw: RawRead)
    ensures var draw := EvaluateSignal(raw).draw;
            draw.plan.Some? ==> Poi.SoundGeometry(draw.plan.value) && draw.side == Some(draw.plan.value.direction)
  {
    hide RankedDraws, Poi.BuildPlan;
    var draw := EvaluateSignal(raw).draw;
    if draw.plan.Some? {
      Poi.PlanIsSound(raw.zones, draw.side.value, raw.positionPrice.value, raw.range, draw.objectives);
    }
  }

  /** What the verdict plane relies on: a candidate's side is its setup's, its plan's and its lean. */
  ghost predicate CandidateAgrees(e: Evaluation) {
    CandidateSide(e.decision) != None ==>
      CandidateSide(e.decision) == e.direction == e.risk.direction == e.lean
  }

  /** A candidate survives every veto, so nothing the timeframe reads leans against it. */
  lemma {:induction false} CandidatesAgree(raw: RawRead)
    ensures CandidateAgrees(EvaluateSignal(raw))
  {
    var e := EvaluateSignal(raw);
    if CandidateSide(e.decision) != None {
      assert NoTradeReasons(raw) == [];
      NoVeto(raw);
    }
  }

  lemma {:induction false} NoVeto(raw: RawRead)
    requires NoTradeReasons(raw) == []
    ensures var direction := DecisionFromSetup(raw.setup);
            direction != None ==>
              && RegimeLean(raw.regime) in {None, direction}
              && StructureLean(raw.structure) in {None, direction}
  {
    var direction, structLean := DecisionFromSetup(raw.setup), StructureLean(raw.structure);
    var against := (direction == Some(Long) && raw.regime == TrendingDown)
      || (direction == Some(Short) && raw.regime == TrendingUp);
    var fights := direction != None && structLean != None && structLean != direction;
    assert against ==> AgainstRegime in NoTradeReasons(raw);
    assert fights ==> FightsStructure in NoTradeReasons(raw);
  }
}
