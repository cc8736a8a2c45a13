/** Position sizing (backend/app/execution/sizing.py), over exact reals. */
module Sizing {
  import opened Types

  const MIN_RISK_FRACTION := 0.005
  const MAX_RISK_FRACTION := 0.03
  const DEFAULT_MAINTENANCE_MARGIN_RATE := 0.005

  datatype SymbolFilters = SymbolFilters(stepSize: real, minQty: real, minNotional: real, tickSize: real)

  datatype RejectReason = InvalidStop | PriceNotOnTick | BelowMinQty | BelowMinNotional

  datatype SizingResult = SizingResult(
    approved: bool, side: Side, entryPrice: real, stopPrice: real, stopDistance: real, riskFraction: real,
    riskAmount: real, quantity: real, notional: real, requiredMargin: real, effectiveLeverage: real,
    liquidationPrice: Option<real>, realizedRiskAmount: real, realizedRiskFraction: real,
    rejectReason: Option<RejectReason>)

  /** Misuse is the source's ValueError; everything market-driven comes back as a result. */
  datatype SizeOutcome = Misuse | Sized(result: SizingResult)

  // ---------------------------------------------------------------- step and tick

  /** Rounding toward zero. */
  function Truncate(x: real): int { if x >= 0.0 then x.Floor else -((-x).Floor) }

  function RoundDownToStep(value: real, step: real): real
    requires step > 0.0
  {
    Truncate(value / step) as real * step
  }

  predicate OnTick(price: real, tick: real) {
    tick > 0.0 && (price / tick).Floor as real == price / tick
  }

  lemma {:induction false} Bracket(value: real, step: real, ratio: real, n: real, next: real)
    requires ratio * step == value && 0.0 <= n <= ratio < next && step > 0.0
    ensures 0.0 <= n * step <= value < next * step
  {
    MulMonotone(0.0, n, step);
    MulMonotone(n, ratio, step);
    MulStrict(ratio, next, step);
  }

  lemma {:induction false} Distribute(a: real, k: real)
    ensures (a + 1.0) * k == a * k + k
  {}

  lemma {:induction false} RoundDownBracket(value: real, step: real)
    requires value >= 0.0 && step > 0.0
    ensures var n := (value / step).Floor as real;
            RoundDownToStep(value, step) == n * step && 0.0 <= n * step <= value < n * step + step
  {
    var ratio := value / step;
    assert ratio * step == value && ratio >= 0.0;
    var n := ratio.Floor as real;
    Bracket(value, step, ratio, n, n + 1.0);
    Distribute(n, step);
  }

  lemma {:induction false} GreatestMultiple(value: real, step: real, n: int, m: int)
    requires step > 0.0 && value < n as real * step + step
    ensures m as real * step <= value ==> m as real * step <= n as real * step
  {
    Distribute(n as real, step);
    if m <= n { MulMonotone(m as real, n as real, step); } else { MulMonotone(n as real + 1.0, m as real, step); }
  }

  /** The rounded quantity is the greatest step multiple not above the value. */
  lemma {:induction false} RoundDownIsGreatest(value: real, step: real, m: int)
    requires value >= 0.0 && step > 0.0
    ensures var r := RoundDownToStep(value, step);
            && 0.0 <= r <= value < r + step
            && (m as real * step <= value ==> m as real * step <= r)
  {
    RoundDownBracket(value, step);
    GreatestMultiple(value, step, (value / step).Floor, m);
  }

  lemma {:induction false} MulMonotone(a: real, b: real, k: real)
    requires a <= b && k >= 0.0
    ensures a * k <= b * k
  {
    assert (b - a) * k >= 0.0;
  }

  lemma {:induction false} MulStrict(a: real, b: real, k: real)
    requires a < b && k > 0.0
    ensures a * k < b * k
  {
    assert (b - a) * k > 0.0;
  }

  lemma {:induction false} DivCancel(k: real, x: real)
    requires k > 0.0
    ensures k * x / k == x
  {
    var q := k * x / k;
    assert q * k == k * x;
    assert (q - x) * k == 0.0;
  }

  // ---------------------------------------------------------------- sizing

  predicate ValidArguments(balance: real, entry: real, riskFraction: real, f: SymbolFilters, leverage: real) {
    && MIN_RISK_FRACTION <= riskFraction <= MAX_RISK_FRACTION
    && balance > 0.0 && entry > 0.0 && leverage > 0.0
    && f.stepSize > 0.0 && f.tickSize > 0.0 && f.minQty >= 0.0 && f.minNotional >= 0.0
  }

  predicate StopOnRightSide(side: Side, entry: real, stop: real) {
    if side == Long then stop < entry else stop > entry
  }

  /** The quantity the budget allows, rounded down. */
  function BudgetQuantity(balance: real, entry: real, stop: real, riskFraction: real, f: SymbolFilters): real
    requires f.stepSize > 0.0 && entry != stop
  {
    RoundDownToStep(balance * riskFraction / Abs(entry - stop), f.stepSize)
  }

  /** The isolated-margin estimate; there is none at leverage 1 or below. */
  function LiquidationEstimate(side: Side, entry: real, leverage: real, mmr: real): Option<real> {
    if leverage <= 1.0 then None
    else Some(if side == Long then entry * (1.0 - 1.0 / leverage + mmr) else entry * (1.0 + 1.0 / leverage - mmr))
  }

  predicate MeetsMinimums(q: real, entry: real, f: SymbolFilters) {
    q > 0.0 && q >= f.minQty && q * entry >= f.minNotional
  }

  function Rejection(side: Side, balance: real, entry: real, stop: real, riskFraction: real, q: real, notional: real,
                     reason: RejectReason): SizingResult
    requires balance > 0.0
  {
    var d := Abs(entry - stop);
    SizingResult(false, side, entry, stop, d, riskFraction, balance * riskFraction, q, notional, 0.0, 0.0, None, q * d,
                 q * d / balance, Some(reason))
  }

  function Approval(side: Side, balance: real, entry: real, stop: real, riskFraction: real, q: real, leverage: real,
                    mmr: real): SizingResult
    requires balance > 0.0 && leverage > 0.0
  {
    var d := Abs(entry - stop);
    SizingResult(true, side, entry, stop, d, riskFraction, balance * riskFraction, q, q * entry, q * entry / leverage,
                 q * entry / balance, LiquidationEstimate(side, entry, leverage, mmr), q * d, q * d / balance, None)
  }

  function SizePosition(side: Side, balance: real, entry: real, stop: real, riskFraction: real, f: SymbolFilters,
                        leverage: real, mmr: real): SizeOutcome
  {
    if !ValidArguments(balance, entry, riskFraction, f, leverage) then Misuse
    else if !StopOnRightSide(side, entry, stop)
      then Sized(Rejection(side, balance, entry, stop, riskFraction, 0.0, 0.0, InvalidStop))
    else if !OnTick(entry, f.tickSize) || !OnTick(stop, f.tickSize) then
      Sized(Rejection(side, balance, entry, stop, riskFraction, 0.0, 0.0, PriceNotOnTick))
    else
      var q := BudgetQuantity(balance, entry, stop, riskFraction, f);
      if q <= 0.0 || q < f.minQty
        then Sized(Rejection(side, balance, entry, stop, riskFraction, q, q * entry, BelowMinQty))
      else if q * entry < f.minNotional
        then Sized(Rejection(side, balance, entry, stop, riskFraction, q, q * entry, BelowMinNotional))
      else Sized(Approval(side, balance, entry, stop, riskFraction, q, leverage, mmr))
  }

  /** A quantity spends its budget when it fits and neither one more step nor a larger multiple `m` would. */
  ghost predicate SpendsBudget(q: real, d: real, risk: real, step: real, m: int) {
    0.0 <= q * d <= risk < (q + step) * d && (m as real * step * d <= risk ==> m as real * step <= q)
  }

  /** Rounding a budget `risk` at distance `d` down to a step: what it risks fits, one step more does not. */
  lemma {:induction false} BudgetRounds(risk: real, d: real, step: real, m: int)
    requires risk > 0.0 && d > 0.0 && step > 0.0
    ensures SpendsBudget(RoundDownToStep(risk / d, step), d, risk, step, m)
  {
    var ideal, tried := risk / d, m as real * step;
    assert ideal * d == risk;
    RoundDownIsGreatest(ideal, step, m);
    var q := RoundDownToStep(ideal, step);
    Bracket(risk, d, ideal, q, q + step);
    if tried > ideal { MulStrict(ideal, tried, d); }
  }

  /** A part of `balance * fraction` is at most that fraction of the balance. */
  lemma {:induction false} ShareOfBalance(part: real, balance: real, fraction: real)
    requires balance > 0.0 && part <= balance * fraction
    ensures part / balance <= fraction
  {
    DivMonotone(part, balance * fraction, balance);
    DivCancel(balance, fraction);
  }

  ghost predicate FillsBudget(r: SizingResult, f: SymbolFilters, m: int) {
    && r.quantity > 0.0 && r.quantity >= f.minQty && r.notional >= f.minNotional
    && SpendsBudget(r.quantity, r.stopDistance, r.riskAmount, f.stepSize, m)
    && r.realizedRiskAmount == r.quantity * r.stopDistance
    && r.realizedRiskFraction <= r.riskFraction
  }

  lemma {:induction false} BudgetQuantitySpends(balance: real, entry: real, stop: real, riskFraction: real,
                                                f: SymbolFilters, m: int)
    requires balance > 0.0 && riskFraction > 0.0 && f.stepSize > 0.0 && entry != stop
    ensures var q, d := BudgetQuantity(balance, entry, stop, riskFraction, f), Abs(entry - stop);
            SpendsBudget(q, d, balance * riskFraction, f.stepSize, m) && q * d / balance <= riskFraction
  {
    var risk, d := balance * riskFraction, Abs(entry - stop);
    MulStrict(0.0, riskFraction, balance);
    BudgetRounds(risk, d, f.stepSize, m);
    ShareOfBalance(BudgetQuantity(balance, entry, stop, riskFraction, f) * d, balance, riskFraction);
  }

  lemma {:induction false} ApprovedShape(side: Side, balance: real, entry: real, stop: real, riskFraction: real,
                                         f: SymbolFilters, leverage: real, mmr: real)
    requires SizePosition(side, balance, entry, stop, riskFraction, f, leverage, mmr).Sized?
    requires SizePosition(side, balance, entry, stop, riskFraction, f, leverage, mmr).result.approved
    ensures ValidArguments(balance, entry, riskFraction, f, leverage) && StopOnRightSide(side, entry, stop)
    ensures var q := BudgetQuantity(balance, entry, stop, riskFraction, f);
            && MeetsMinimums(q, entry, f)
            && SizePosition(side, balance, entry, stop, riskFraction, f, leverage, mmr).result
               == Approval(side, balance, entry, stop, riskFraction, q, leverage, mmr)
  {}

  /** The quantity is the greatest step multiple within budget, so the realized risk never exceeds the
      configured amount or fraction. */
  lemma {:induction false} QuantityFillsBudget(side: Side, balance: real, entry: real, stop: real, riskFraction: real,
                                               f: SymbolFilters, leverage: real, mmr: real, m: int)
    requires SizePosition(side, balance, entry, stop, riskFraction, f, leverage, mmr).Sized?
    requires SizePosition(side, balance, entry, stop, riskFraction, f, leverage, mmr).result.approved
    ensures var r := SizePosition(side, balance, entry, stop, riskFraction, f, leverage, mmr).result;
            FillsBudget(r, f, m) && r.riskAmount == balance * riskFraction && r.stopDistance == Abs(entry - stop)
  {
    ApprovedShape(side, balance, entry, stop, riskFraction, f, leverage, mmr);
    BudgetQuantitySpends(balance, entry, stop, riskFraction, f, m);
  }

  /** Sizing approves exactly when the stop is on its side, both prices are on tick, and the budget's
      quantity meets the exchange minimums. */
  lemma {:induction false} ApprovedIff(side: Side, balance: real, entry: real, stop: real, riskFraction: real,
                                       f: SymbolFilters, leverage: real, mmr: real)
    requires ValidArguments(balance, entry, riskFraction, f, leverage)
    ensures var outcome := SizePosition(side, balance, entry, stop, riskFraction, f, leverage, mmr);
            outcome.Sized? &&
            (outcome.result.approved
             <==> && StopOnRightSide(side, entry, stop) && OnTick(entry, f.tickSize) && OnTick(stop, f.tickSize)
                  && MeetsMinimums(BudgetQuantity(balance, entry, stop, riskFraction, f), entry, f))
  {}

  // ---------------------------------------------------------------- the outcome in its own numbers

  predicate IsMultiple(price: real, tick: real, k: int) { price == k as real * tick }

  /** On tick means a whole number of ticks. */
  lemma {:induction false} OnTickIff(price: real, tick: real)
    requires tick > 0.0
    ensures OnTick(price, tick) <==> exists k :: IsMultiple(price, tick, k)
  {
    var ratio := price / tick;
    assert ratio * tick == price;
    if OnTick(price, tick) { assert IsMultiple(price, tick, ratio.Floor); }
    if k :| IsMultiple(price, tick, k) {
      assert (ratio - k as real) * tick == 0.0;
      FloorIs(k, ratio);
    }
  }

  ghost predicate BothOnTick(entry: real, stop: real, tick: real) {
    (exists k :: IsMultiple(entry, tick, k)) && (exists k :: IsMultiple(stop, tick, k))
  }

  /** Which refusal it is: a stop not on the losing side, then a price off the grid, then a quantity that is nothing or
      under the minimum, then one worth too little. */
  lemma {:induction false} RefusedFor(side: Side, balance: real, entry: real, stop: real, riskFraction: real,
                                      f: SymbolFilters, leverage: real, mmr: real)
    requires ValidArguments(balance, entry, riskFraction, f, leverage)
    ensures SizePosition(side, balance, entry, stop, riskFraction, f, leverage, mmr).Sized?
    ensures var r := SizePosition(side, balance, entry, stop, riskFraction, f, leverage, mmr).result;
            var placed := match side case Long => stop < entry case Short => entry < stop;
            && (r.rejectReason == Some(InvalidStop) <==> !placed)
            && (r.rejectReason == Some(PriceNotOnTick) <==> placed && !BothOnTick(entry, stop, f.tickSize))
            && (r.rejectReason == Some(BelowMinQty)
                <==> placed && BothOnTick(entry, stop, f.tickSize) && (r.quantity <= 0.0 || r.quantity < f.minQty))
            && (r.rejectReason == Some(BelowMinNotional)
                <==> && placed && BothOnTick(entry, stop, f.tickSize) && r.quantity > 0.0 && r.quantity >= f.minQty
                     && r.quantity * entry < f.minNotional)
            && (r.approved <==> r.rejectReason == None)
  {
    OnTickIff(entry, f.tickSize);
    OnTickIff(stop, f.tickSize);
    hide OnTick, IsMultiple, BudgetQuantity, LiquidationEstimate;
  }

  /** Which arguments are misuse. */
  lemma {:induction false} MisuseIff(side: Side, balance: real, entry: real, stop: real, riskFraction: real,
                                     f: SymbolFilters, leverage: real, mmr: real)
    ensures SizePosition(side, balance, entry, stop, riskFraction, f, leverage, mmr) == Misuse
            <==> || riskFraction < 0.005 || riskFraction > 0.03 || balance <= 0.0 || entry <= 0.0 || leverage <= 0.0
                 || f.stepSize <= 0.0 || f.tickSize <= 0.0 || f.minQty < 0.0 || f.minNotional < 0.0
  {
    hide BudgetQuantity, LiquidationEstimate, OnTick;
  }

  /** The arguments repeated, the budget, and what the quantity would risk. */
  ghost predicate Echoes(r: SizingResult, side: Side, balance: real, entry: real, stop: real, riskFraction: real) {
    && r.side == side && r.entryPrice == entry && r.stopPrice == stop && r.riskFraction == riskFraction
    && r.stopDistance == (if stop < entry then entry - stop else stop - entry)
    && r.riskAmount == balance * riskFraction && r.realizedRiskAmount == r.quantity * r.stopDistance
    && r.realizedRiskFraction * balance == r.realizedRiskAmount
  }

  ghost predicate Refused(r: SizingResult, q: real, notional: real, reason: RejectReason) {
    && r.quantity == q && r.notional == notional && r.rejectReason == Some(reason) && !r.approved
    && r.requiredMargin == 0.0 == r.effectiveLeverage && r.liquidationPrice == None
  }

  lemma {:induction false} ResultEchoes(side: Side, balance: real, entry: real, stop: real, riskFraction: real,
                                        f: SymbolFilters, leverage: real, mmr: real)
    requires SizePosition(side, balance, entry, stop, riskFraction, f, leverage, mmr).Sized?
    ensures Echoes(SizePosition(side, balance, entry, stop, riskFraction, f, leverage, mmr).result, side, balance,
                   entry, stop, riskFraction)
  {
    hide BudgetQuantity, LiquidationEstimate, OnTick, StopOnRightSide;
    Undo(SizePosition(side, balance, entry, stop, riskFraction, f, leverage, mmr).result.realizedRiskAmount, balance);
  }

  /** A misplaced or off-grid price gives no quantity, every other outcome the budget's; a refusal commits nothing. */
  lemma {:induction false} ResultQuantity(side: Side, balance: real, entry: real, stop: real, riskFraction: real,
                                          f: SymbolFilters, leverage: real, mmr: real)
    requires SizePosition(side, balance, entry, stop, riskFraction, f, leverage, mmr).Sized?
    ensures var r := SizePosition(side, balance, entry, stop, riskFraction, f, leverage, mmr).result;
            if r.rejectReason in {Some(InvalidStop), Some(PriceNotOnTick)}
              then Refused(r, 0.0, 0.0, r.rejectReason.value)
            else
              && entry != stop && f.stepSize > 0.0
              && r.quantity == BudgetQuantity(balance, entry, stop, riskFraction, f)
              && r.notional == r.quantity * entry
              && (r.rejectReason.Some? ==> Refused(r, r.quantity, r.notional, r.rejectReason.value))
  {
    hide BudgetQuantity, LiquidationEstimate, OnTick, Abs;
  }

  /** The other numbers of an approval: the margin carries the notional at the leverage, the effective leverage is the
      notional over the balance, and above leverage 1 a long is liquidated below its entry by the margin less the
      maintenance rate, a short as far above. */
  lemma {:induction false} ApprovalNumbers(side: Side, balance: real, entry: real, stop: real, riskFraction: real,
                                           f: SymbolFilters, leverage: real, mmr: real)
    requires SizePosition(side, balance, entry, stop, riskFraction, f, leverage, mmr).Sized?
    requires SizePosition(side, balance, entry, stop, riskFraction, f, leverage, mmr).result.approved
    ensures var r := SizePosition(side, balance, entry, stop, riskFraction, f, leverage, mmr).result;
            && balance > 0.0 && leverage > 0.0
            && r.side == side && r.entryPrice == entry && r.stopPrice == stop && r.riskFraction == riskFraction
            && r.notional == r.quantity * entry && r.requiredMargin * leverage == r.notional
            && r.effectiveLeverage * balance == r.notional && r.realizedRiskFraction * balance == r.realizedRiskAmount
            && (r.liquidationPrice.Some? <==> leverage > 1.0)
            && (leverage > 1.0 ==> LiquidatedAt(side, entry, leverage, mmr, r.liquidationPrice.value))
  {
    ApprovedShape(side, balance, entry, stop, riskFraction, f, leverage, mmr);
    var q := BudgetQuantity(balance, entry, stop, riskFraction, f);
    hide BudgetQuantity, SizePosition;
    Undo(q * entry, leverage);
    Undo(q * entry, balance);
    Undo(q * Abs(entry - stop), balance);
    if leverage > 1.0 { EstimateIs(side, entry, leverage, mmr); }
  }

  ghost predicate LiquidatedAt(side: Side, entry: real, leverage: real, mmr: real, liquidation: real) {
    (match side case Long => entry - liquidation case Short => liquidation - entry) * leverage
    == entry * (1.0 - mmr * leverage)
  }

  lemma {:induction false} EstimateIs(side: Side, entry: real, leverage: real, mmr: real)
    requires leverage > 1.0
    ensures LiquidatedAt(side, entry, leverage, mmr, LiquidationEstimate(side, entry, leverage, mmr).value)
  {
    var inverse := 1.0 / leverage;
    assert inverse * leverage == 1.0;
    assert entry * (inverse - mmr) * leverage == entry * (inverse * leverage - mmr * leverage);
    assert entry - entry * (1.0 - inverse + mmr) == entry * (inverse - mmr);
    assert entry * (1.0 + inverse - mmr) - entry == entry * (inverse - mmr);
  }

  lemma {:induction false} Undo(x: real, k: real)
    requires k > 0.0
    ensures x / k * k == x
  {}
}
