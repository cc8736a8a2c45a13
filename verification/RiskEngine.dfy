/** The permit decision core (backend/app/execution/risk_engine.py). */
module RiskEngine {
  import opened Types
  import opened Sizing

  const RISK_PER_TRADE_MIN_PERCENT := 0.5
  const RISK_PER_TRADE_MAX_PERCENT := 3.0
  const LIQ_STOP_BUFFER := 0.20

  datatype PermitCheck = RiskPctOutOfBand | DailyLossLimit | WeeklyLossLimit | MaxLeverage | MaxConcurrentPositions
    | MaxCorrelatedExposure | RrBelowMin | StopMissing | LiquidationInsideStop | SymbolNotAllowed | SessionNotAllowed
    | StaleAccountState | BindingCooldownActive

  const CHECK_ORDER: seq<PermitCheck> :=
    [RiskPctOutOfBand, DailyLossLimit, WeeklyLossLimit, MaxLeverage, MaxConcurrentPositions, MaxCorrelatedExposure,
     RrBelowMin, StopMissing, LiquidationInsideStop, SymbolNotAllowed, SessionNotAllowed, StaleAccountState,
     BindingCooldownActive]

  datatype PermitStatus = Approved | Rejected

  datatype TradeProposal = TradeProposal(
    symbol: string, side: Side, entryPrice: real, stopPrice: Option<real>, takeProfitPrice: Option<real>,
    riskPercent: real, leverage: real, correlationBucket: string, proposedNotionalPercent: real,
    liquidationPrice: Option<real>)

  datatype AccountState = AccountState(
    balance: real, openPositionCount: int, dailyPnlPercent: real, weeklyPnlPercent: real,
    exposureByBucket: map<string, real>, behaviorFlags: set<string>, isStale: bool)

  datatype Constitution = Constitution(
    riskPerTradePercent: real, dailyLossLimitPercent: real, weeklyLossLimitPercent: real, maxLeverage: real,
    maxConcurrentPositions: int, maxCorrelatedExposurePercent: real, minRiskReward: real,
    allowedSessions: set<string>, allowedSymbols: set<string>, bindingCooldowns: map<string, bool>)

  datatype CheckResult = CheckResult(check: PermitCheck, passed: bool)

  datatype PermitDecision = PermitDecision(status: PermitStatus, checks: seq<CheckResult>, reasons: seq<PermitCheck>)

  // ---------------------------------------------------------------- the checks

  /** A zero limit is no limit. */
  predicate WithinLossLimit(pnl: real, limit: real) { !(limit > 0.0 && -pnl >= limit) }

  function RiskReward(p: TradeProposal): real {
    if p.stopPrice == None || p.takeProfitPrice == None then 0.0
    else
      var risk := if p.side == Long then p.entryPrice - p.stopPrice.value else p.stopPrice.value - p.entryPrice;
      var reward := if p.side == Long then p.takeProfitPrice.value - p.entryPrice
        else p.entryPrice - p.takeProfitPrice.value;
      if risk <= 0.0 || reward <= 0.0 then 0.0 else reward / risk
  }

  /** The liquidation estimate sits at least the buffer past the stop; without an estimate, a stop or a
      distance there is nothing to compare. */
  predicate LiquidationClear(p: TradeProposal) {
    p.liquidationPrice == None || p.stopPrice == None ||
    var d := Abs(p.entryPrice - p.stopPrice.value);
    d <= 0.0 ||
    (if p.side == Long then p.stopPrice.value - p.liquidationPrice.value
     else p.liquidationPrice.value - p.stopPrice.value)
    >= LIQ_STOP_BUFFER * d
  }

  predicate Allowed(name: string, allowed: set<string>) { allowed == {} || name in allowed }

  predicate CooldownBinding(state: AccountState, c: Constitution) {
    exists flag :: flag in state.behaviorFlags && flag in c.bindingCooldowns && c.bindingCooldowns[flag]
  }

  predicate Passes(check: PermitCheck, p: TradeProposal, state: AccountState, c: Constitution, session: string) {
    match check
    case RiskPctOutOfBand => RISK_PER_TRADE_MIN_PERCENT <= p.riskPercent <= RISK_PER_TRADE_MAX_PERCENT
      && p.riskPercent <= c.riskPerTradePercent
    case DailyLossLimit => WithinLossLimit(state.dailyPnlPercent, c.dailyLossLimitPercent)
    case WeeklyLossLimit => WithinLossLimit(state.weeklyPnlPercent, c.weeklyLossLimitPercent)
    case MaxLeverage => p.leverage <= c.maxLeverage
    case MaxConcurrentPositions => state.openPositionCount < c.maxConcurrentPositions
    case MaxCorrelatedExposure =>
      (if p.correlationBucket in state.exposureByBucket then state.exposureByBucket[p.correlationBucket] else 0.0)
      + p.proposedNotionalPercent <= c.maxCorrelatedExposurePercent
    case RrBelowMin => p.stopPrice == None || RiskReward(p) >= c.minRiskReward
    case StopMissing => p.stopPrice.Some?
    case LiquidationInsideStop => LiquidationClear(p)
    case SymbolNotAllowed => Allowed(p.symbol, c.allowedSymbols)
    case SessionNotAllowed => Allowed(session, c.allowedSessions)
    case StaleAccountState => !state.isStale
    case BindingCooldownActive => !CooldownBinding(state, c)
  }

  function ResultsOf(order: seq<PermitCheck>, p: TradeProposal, state: AccountState, c: Constitution,
                     session: string): seq<CheckResult> {
    if |order| == 0 then []
    else ResultsOf(order[..|order| - 1], p, state, c, session)
         + [CheckResult(order[|order| - 1], Passes(order[|order| - 1], p, state, c, session))]
  }

  function FailedOf(results: seq<CheckResult>): seq<PermitCheck> {
    if |results| == 0 then []
    else FailedOf(results[..|results| - 1]) + if results[|results| - 1].passed then []
      else [results[|results| - 1].check]
  }

  function EvaluatePermit(p: TradeProposal, state: AccountState, c: Constitution, session: string): PermitDecision {
    var checks := ResultsOf(CHECK_ORDER, p, state, c, session);
    var reasons := FailedOf(checks);
    PermitDecision(if reasons == [] then Approved else Rejected, checks, reasons)
  }

  // ---------------------------------------------------------------- what the decision means

  lemma {:induction false} FailedMeaning(order: seq<PermitCheck>, p: TradeProposal, state: AccountState,
                                         c: Constitution, session: string)
    ensures forall k ::
            k in FailedOf(ResultsOf(order, p, state, c, session)) <==> k in order && !Passes(k, p, state, c, session)
  {
    if |order| > 0 {
      var init, last := order[..|order| - 1], order[|order| - 1];
      FailedMeaning(init, p, state, c, session);
      assert order == init + [last];
      var results := ResultsOf(order, p, state, c, session);
      assert results[..|results| - 1] == ResultsOf(init, p, state, c, session);
    }
  }

  /** The reward is at least `least` times the risk; asking for nothing, no target is needed. */
  ghost predicate PaysAtLeast(p: TradeProposal, stop: real, least: real) {
    least <= 0.0 ||
    match p.takeProfitPrice
    case None => false
    case Some(target) =>
      match p.side
      case Long => stop < p.entryPrice < target && target - p.entryPrice >= least * (p.entryPrice - stop)
      case Short => target < p.entryPrice < stop && p.entryPrice - target >= least * (stop - p.entryPrice)
  }

  lemma {:induction false} RatioAtLeast(reward: real, risk: real, least: real)
    requires risk > 0.0
    ensures reward / risk >= least <==> reward >= least * risk
  {
    assert reward / risk * risk == reward;
    assert (reward / risk - least) * risk == reward - least * risk;
  }

  lemma {:induction false} RewardOnFields(p: TradeProposal, least: real)
    requires p.stopPrice.Some?
    ensures RiskReward(p) >= least <==> PaysAtLeast(p, p.stopPrice.value, least)
  {
    if p.takeProfitPrice.Some? {
      var stop, target := p.stopPrice.value, p.takeProfitPrice.value;
      var risk := if p.side == Long then p.entryPrice - stop else stop - p.entryPrice;
      var reward := if p.side == Long then target - p.entryPrice else p.entryPrice - target;
      if risk > 0.0 {
        RatioAtLeast(reward, risk, least);
        RatioAtLeast(reward, risk, 0.0);
      }
    }
  }

  /** The estimated liquidation leaves the stop a fifth of its distance, on the losing side. */
  ghost predicate LiquidatedPast(p: TradeProposal, stop: real, liquidation: real) {
    match p.side
    case Long => liquidation + 0.20 * Abs(p.entryPrice - stop) <= stop
    case Short => stop + 0.20 * Abs(p.entryPrice - stop) <= liquidation
  }

  /** Each reason in the fields of the proposal, the account and the constitution. */
  lemma {:induction false} ReasonsOnFields(p: TradeProposal, state: AccountState, c: Constitution, session: string)
    ensures var reasons := EvaluatePermit(p, state, c, session).reasons;
            var bucket := p.correlationBucket;
            && (RiskPctOutOfBand in reasons
                <==> p.riskPercent < 0.5 || p.riskPercent > 3.0 || p.riskPercent > c.riskPerTradePercent)
            && (DailyLossLimit in reasons
                <==> c.dailyLossLimitPercent > 0.0 && state.dailyPnlPercent <= -c.dailyLossLimitPercent)
            && (WeeklyLossLimit in reasons
                <==> c.weeklyLossLimitPercent > 0.0 && state.weeklyPnlPercent <= -c.weeklyLossLimitPercent)
            && (MaxLeverage in reasons <==> p.leverage > c.maxLeverage)
            && (MaxConcurrentPositions in reasons <==> state.openPositionCount >= c.maxConcurrentPositions)
            && (MaxCorrelatedExposure in reasons
                <==> c.maxCorrelatedExposurePercent
                     < p.proposedNotionalPercent
                       + if bucket in state.exposureByBucket then state.exposureByBucket[bucket] else 0.0)
            && (RrBelowMin in reasons
                <==> p.stopPrice.Some? && !PaysAtLeast(p, p.stopPrice.value, c.minRiskReward))
            && (StopMissing in reasons <==> p.stopPrice == None)
            && (LiquidationInsideStop in reasons
                <==> && p.liquidationPrice.Some? && p.stopPrice.Some? && p.stopPrice.value != p.entryPrice
                     && !LiquidatedPast(p, p.stopPrice.value, p.liquidationPrice.value))
            && (SymbolNotAllowed in reasons <==> c.allowedSymbols != {} && p.symbol !in c.allowedSymbols)
            && (SessionNotAllowed in reasons <==> c.allowedSessions != {} && session !in c.allowedSessions)
            && (StaleAccountState in reasons <==> state.isStale)
            && (BindingCooldownActive in reasons
                <==> exists flag ::
                       flag in state.behaviorFlags && flag in c.bindingCooldowns && c.bindingCooldowns[flag])
  {
    hide EvaluatePermit, RiskReward, PaysAtLeast;
    DecisionMeaning(p, state, c, session);
    if p.stopPrice.Some? { RewardOnFields(p, c.minRiskReward); }
  }

  lemma {:induction false} EveryCheckOrdered(k: PermitCheck)
    ensures k in CHECK_ORDER
  {
    match k
    case RiskPctOutOfBand => assert CHECK_ORDER[0] == k;
    case DailyLossLimit => assert CHECK_ORDER[1] == k;
    case WeeklyLossLimit => assert CHECK_ORDER[2] == k;
    case MaxLeverage => assert CHECK_ORDER[3] == k;
    case MaxConcurrentPositions => assert CHECK_ORDER[4] == k;
    case MaxCorrelatedExposure => assert CHECK_ORDER[5] == k;
    case RrBelowMin => assert CHECK_ORDER[6] == k;
    case StopMissing => assert CHECK_ORDER[7] == k;
    case LiquidationInsideStop => assert CHECK_ORDER[8] == k;
    case SymbolNotAllowed => assert CHECK_ORDER[9] == k;
    case SessionNotAllowed => assert CHECK_ORDER[10] == k;
    case StaleAccountState => assert CHECK_ORDER[11] == k;
    case BindingCooldownActive => assert CHECK_ORDER[12] == k;
  }

  /** The reasons are exactly the failing checks, and a permit is approved exactly when none fails. */
  lemma {:induction false} DecisionMeaning(p: TradeProposal, state: AccountState, c: Constitution, session: string)
    ensures var d := EvaluatePermit(p, state, c, session);
            && (forall k :: k in d.reasons <==> !Passes(k, p, state, c, session))
            && (d.status == Approved <==> forall k :: Passes(k, p, state, c, session))
  {
    FailedMeaning(CHECK_ORDER, p, state, c, session);
    var d := EvaluatePermit(p, state, c, session);
    forall k ensures k in d.reasons <==> !Passes(k, p, state, c, session) { EveryCheckOrdered(k); }
    if d.reasons != [] { assert d.reasons[0] in d.reasons; }
  }

  // ---------------------------------------------------------------- loosening a constitution

  predicate LooserLimit(looser: real, limit: real) { looser <= 0.0 || (limit > 0.0 && looser >= limit) }

  predicate LooserList(looser: set<string>, list: set<string>) { looser == {} || (list != {} && list <= looser) }

  /** `looser` allows at least as much: higher caps, a lower minimum, and zero or empty meaning unrestricted. */
  ghost predicate Looser(looser: Constitution, c: Constitution) {
    && looser.riskPerTradePercent >= c.riskPerTradePercent
    && LooserLimit(looser.dailyLossLimitPercent, c.dailyLossLimitPercent)
    && LooserLimit(looser.weeklyLossLimitPercent, c.weeklyLossLimitPercent)
    && looser.maxLeverage >= c.maxLeverage && looser.maxConcurrentPositions >= c.maxConcurrentPositions
    && looser.maxCorrelatedExposurePercent >= c.maxCorrelatedExposurePercent
    && looser.minRiskReward <= c.minRiskReward
    && LooserList(looser.allowedSessions, c.allowedSessions) && LooserList(looser.allowedSymbols, c.allowedSymbols)
    && (forall flag :: flag in looser.bindingCooldowns && looser.bindingCooldowns[flag] ==>
        flag in c.bindingCooldowns && c.bindingCooldowns[flag])
  }

  /** Loosening a constitution never adds a reason. */
  lemma {:induction false} LooseningNeverAddsReason(p: TradeProposal, state: AccountState, c: Constitution,
                                                    looser: Constitution, session: string)
    requires Looser(looser, c)
    ensures forall k :: k in EvaluatePermit(p, state, looser, session).reasons ==>
            k in EvaluatePermit(p, state, c, session).reasons
    ensures EvaluatePermit(p, state, c, session).status == Approved ==>
            EvaluatePermit(p, state, looser, session).status == Approved
  {
    DecisionMeaning(p, state, c, session);
    DecisionMeaning(p, state, looser, session);
    forall k ensures Passes(k, p, state, c, session) ==> Passes(k, p, state, looser, session) {}
  }

  // ---------------------------------------------------------------- liquidation against the stop

  /** The closed form behind the rejection hint, before it is rounded for display. */
  function MaxLeverageThatPasses(entry: real, stopDistance: real, buffer: real): Option<real> {
    if entry <= 0.0 || stopDistance <= 0.0 then None
    else
      var denom := DEFAULT_MAINTENANCE_MARGIN_RATE + (1.0 + buffer) * stopDistance / entry;
      if denom <= 0.0 then None else Some(1.0 / denom)
  }

  /** A proposal carrying the estimate its own sizing produced. */
  ghost predicate CarriesEstimate(p: TradeProposal, r: SizingResult) {
    && p.side == r.side && p.entryPrice == r.entryPrice && p.stopPrice == Some(r.stopPrice)
       && p.liquidationPrice == r.liquidationPrice
  }

  /** For every sized long or short above leverage 1 the check and the closed form are the same test:
      it passes exactly when the leverage is at most the unrounded cap. */
  lemma {:induction false} LeverageCapIsExact(p: TradeProposal, balance: real, entry: real, stop: real,
                                              riskFraction: real, f: SymbolFilters, leverage: real)
    requires SizePosition(p.side, balance, entry, stop, riskFraction, f, leverage,
                          DEFAULT_MAINTENANCE_MARGIN_RATE).Sized?
    requires var r := SizePosition(p.side, balance, entry, stop, riskFraction, f, leverage,
                                   DEFAULT_MAINTENANCE_MARGIN_RATE).result;
             r.approved && CarriesEstimate(p, r)
    requires leverage > 1.0
    ensures var cap := MaxLeverageThatPasses(entry, Abs(entry - stop), LIQ_STOP_BUFFER);
            cap.Some? && (LiquidationClear(p) <==> leverage <= cap.value)
  {
    CapArithmetic(entry, Abs(entry - stop), leverage);
  }

  /** `e / L - e * m >= (1 + b) * d` exactly when `L <= 1 / (m + (1 + b) * d / e)`. */
  lemma {:induction false} CapArithmetic(entry: real, d: real, leverage: real)
    requires entry > 0.0 && d > 0.0 && leverage > 0.0
    ensures var denom := DEFAULT_MAINTENANCE_MARGIN_RATE + (1.0 + LIQ_STOP_BUFFER) * d / entry;
            denom > 0.0 &&
            (entry * (1.0 / leverage) - entry * DEFAULT_MAINTENANCE_MARGIN_RATE - d >= LIQ_STOP_BUFFER * d
             <==> leverage <= 1.0 / denom)
  {
    var ratio := (1.0 + LIQ_STOP_BUFFER) * d / entry;
    var denom := DEFAULT_MAINTENANCE_MARGIN_RATE + ratio;
    assert ratio * entry == (1.0 + LIQ_STOP_BUFFER) * d;
    assert ratio > 0.0;
    var inv := 1.0 / leverage;
    assert inv * leverage == 1.0;
    assert entry * inv - entry * denom == entry * (inv - denom);
    assert entry * denom == entry * DEFAULT_MAINTENANCE_MARGIN_RATE + (1.0 + LIQ_STOP_BUFFER) * d;
    SignOfProduct(entry, inv - denom);
    assert leverage * (inv - denom) == 1.0 - leverage * denom;
    SignOfProduct(leverage, inv - denom);
    var cap := 1.0 / denom;
    assert cap * denom == 1.0;
    assert (cap - leverage) * denom == 1.0 - leverage * denom;
    SignOfProduct(denom, cap - leverage);
  }

  lemma {:induction false} SignOfProduct(k: real, x: real)
    requires k > 0.0
    ensures k * x >= 0.0 <==> x >= 0.0
  {
    if x >= 0.0 { assert k * x >= 0.0; } else { assert k * (-x) > 0.0; }
  }

  /** Passing is downward closed in leverage. */
  lemma {:induction false} LowerLeveragePasses(p: TradeProposal, q: TradeProposal, balance: real, entry: real,
                                               stop: real, riskFraction: real, f: SymbolFilters, leverage: real,
                                               lower: real)
    requires 0.0 < lower <= leverage && q.side == p.side
    requires var high := SizePosition(p.side, balance, entry, stop, riskFraction, f, leverage,
                                      DEFAULT_MAINTENANCE_MARGIN_RATE);
             high.Sized? && high.result.approved && CarriesEstimate(p, high.result)
    requires var low := SizePosition(p.side, balance, entry, stop, riskFraction, f, lower,
                                     DEFAULT_MAINTENANCE_MARGIN_RATE);
             low.Sized? && CarriesEstimate(q, low.result)
    ensures LiquidationClear(p) ==> LiquidationClear(q)
  {
    if lower > 1.0 {
      LeverageCapIsExact(p, balance, entry, stop, riskFraction, f, leverage);
      LeverageCapIsExact(q, balance, entry, stop, riskFraction, f, lower);
    }
  }
}
