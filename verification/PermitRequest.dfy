/** Issuing a Trade Permit (backend/app/execution/permit_request_service.py). */
module PermitRequest {
  import opened Types
  import opened Sizing
  import opened RiskEngine

  const DEFAULT_FILTERS := SymbolFilters(0.001, 0.001, 5.0, 0.01)

  datatype Dependency
    = ExchangeUnreachable | CredentialsInvalid | RateLimited | SnapshotExpired | BehaviorHistoryUnavailable

  /** What the account service and the trade-record query came back with. */
  datatype AccountFetch = Fetched(state: AccountState) | Unreachable | BadCredentials | Throttled

  datatype BehaviorFetch = Flags(flags: set<string>) | HistoryUnavailable

  datatype Ticket = Ticket(symbol: string, side: Side, entryPrice: real, stopPrice: real, takeProfitPrice: Option<real>,
                           riskPercent: real, leverage: real, correlationBucket: string)

  /** The request schema's own bounds (permit_request_schemas.py). */
  predicate ValidTicket(t: Ticket) {
    t.entryPrice > 0.0 && t.stopPrice > 0.0 && 0.5 <= t.riskPercent <= 3.0 && 1.0 <= t.leverage <= 125.0
  }

  /** A persisted row; `sizing` is what the request computed on the way. */
  datatype Permit = Permit(proposal: TradeProposal, state: AccountState, decision: PermitDecision,
                           sizing: Option<SizingResult>)

  // ---------------------------------------------------------------- account state

  const UNAVAILABLE_STATE := AccountState(0.0, 0, 0.0, 0.0, map[], {}, true)

  function StateOf(fetch: AccountFetch, history: BehaviorFetch): AccountState {
    match fetch
    case Fetched(state) =>
      (match history
       case Flags(flags) => state.(behaviorFlags := flags)
       case HistoryUnavailable => state.(isStale := true))
    case _ => UNAVAILABLE_STATE
  }

  function ErrorsOf(fetch: AccountFetch, history: BehaviorFetch): seq<Dependency> {
    match fetch
    case Fetched(state) => (if state.isStale then [SnapshotExpired] else [])
                           + if history.HistoryUnavailable? then [BehaviorHistoryUnavailable] else []
    case Unreachable => [ExchangeUnreachable]
    case BadCredentials => [CredentialsInvalid]
    case Throttled => [RateLimited]
  }

  // ---------------------------------------------------------------- one request

  function SizingOf(t: Ticket, state: AccountState): SizeOutcome {
    SizePosition(t.side, state.balance, t.entryPrice, t.stopPrice, t.riskPercent / 100.0, DEFAULT_FILTERS, t.leverage,
                 DEFAULT_MAINTENANCE_MARGIN_RATE)
  }

  function ProposalOf(t: Ticket, state: AccountState, sizing: Option<SizingResult>): TradeProposal {
    TradeProposal(t.symbol, t.side, t.entryPrice, Some(t.stopPrice), t.takeProfitPrice, t.riskPercent, t.leverage,
                  t.correlationBucket,
                  if sizing.Some? && state.balance > 0.0 then sizing.value.notional / state.balance * 100.0 else 0.0,
                  if sizing.Some? then sizing.value.liquidationPrice else None)
  }

  /** The permit a request persists; nothing when sizing rejects its arguments as misuse. */
  function PermitFor(t: Ticket, state: AccountState, c: Constitution, session: string): Option<Permit> {
    if !state.isStale && SizingOf(t, state).Misuse? then None
    else
      var sizing := if state.isStale then None else Some(SizingOf(t, state).result);
      var proposal := ProposalOf(t, state, sizing);
      Some(Permit(proposal, state, EvaluatePermit(proposal, state, c, session), sizing))
  }

  class PermitDesk {
    /** Dependency failures so far; a dependency never seen failing counts zero. */
    var failures: map<Dependency, nat>
    var permits: seq<Permit>

    constructor ()
      ensures failures == map[] && permits == []
    {
      failures, permits := map[], [];
    }

    function FailureCount(d: Dependency): nat
      reads this
    {
      if d in failures then failures[d] else 0
    }

    method CountFailure(d: Dependency)
      modifies this`failures
      ensures FailureCount(d) == old(FailureCount(d)) + 1
      ensures forall e :: e != d ==> FailureCount(e) == old(FailureCount(e))
    {
      failures := failures[d := FailureCount(d) + 1];
    }

    /** Every error reported is counted once, and nothing else is. */
    method ServerAccountState(fetch: AccountFetch, history: BehaviorFetch)
      returns (state: AccountState, errors: seq<Dependency>)
      modifies this`failures
      ensures state == StateOf(fetch, history) && errors == ErrorsOf(fetch, history)
      ensures forall d :: FailureCount(d) == old(FailureCount(d)) + if d in errors then 1 else 0
    {
      errors := [];
      match fetch {
        case Unreachable => CountFailure(ExchangeUnreachable); return UNAVAILABLE_STATE, [ExchangeUnreachable];
        case BadCredentials => CountFailure(CredentialsInvalid); return UNAVAILABLE_STATE, [CredentialsInvalid];
        case Throttled => CountFailure(RateLimited); return UNAVAILABLE_STATE, [RateLimited];
        case Fetched(fetched) =>
          state := fetched;
          if fetched.isStale {
            errors := errors + [SnapshotExpired];
            CountFailure(SnapshotExpired);
          }
          match history {
            case HistoryUnavailable =>
              errors := errors + [BehaviorHistoryUnavailable];
              CountFailure(BehaviorHistoryUnavailable);
              state := state.(isStale := true);
            case Flags(flags) => state := state.(behaviorFlags := flags);
          }
      }
    }

    /** One request appends one permit, approved or rejected alike, unless sizing raised. */
    method RequestPermit(t: Ticket, c: Constitution, fetch: AccountFetch, history: BehaviorFetch, session: string)
      returns (issued: Option<Permit>, errors: seq<Dependency>)
      modifies this
      ensures issued == PermitFor(t, StateOf(fetch, history), c, session) && errors == ErrorsOf(fetch, history)
      ensures permits == old(permits) + if issued.Some? then [issued.value] else []
      ensures forall d :: FailureCount(d) == old(FailureCount(d)) + if d in errors then 1 else 0
    {
      var state;
      state, errors := ServerAccountState(fetch, history);
      var sizing: Option<SizingResult> := None;
      if !state.isStale {
        var outcome := SizingOf(t, state);
        if outcome.Misuse? {
          return None, errors;
        }
        sizing := Some(outcome.result);
      }
      var proposal := ProposalOf(t, state, sizing);
      var decision := EvaluatePermit(proposal, state, c, session);
      issued := Some(Permit(proposal, state, decision, sizing));
      permits := permits + [issued.value];
    }
  }

  /** What a request judges: the fetched account with the flags just read, or, when anything failed, a stale one;
      and one error per thing that did. */
  lemma {:induction false} StateOnReads(fetch: AccountFetch, history: BehaviorFetch)
    ensures var state, errors := StateOf(fetch, history), ErrorsOf(fetch, history);
            && (state.isStale <==> errors != [])
            && (fetch.Fetched? ==>
                  && state.balance == fetch.state.balance && state.openPositionCount == fetch.state.openPositionCount
                  && state.dailyPnlPercent == fetch.state.dailyPnlPercent
                  && state.weeklyPnlPercent == fetch.state.weeklyPnlPercent
                  && state.exposureByBucket == fetch.state.exposureByBucket
                  && (history.Flags? ==> state.behaviorFlags == history.flags && state.isStale == fetch.state.isStale))
            && (ExchangeUnreachable in errors <==> fetch == Unreachable)
            && (CredentialsInvalid in errors <==> fetch == BadCredentials)
            && (RateLimited in errors <==> fetch == Throttled)
            && (SnapshotExpired in errors <==> fetch.Fetched? && fetch.state.isStale)
            && (BehaviorHistoryUnavailable in errors <==> fetch.Fetched? && history == HistoryUnavailable)
  {}

  /** What is judged of a ticket: its own fields, with the sized notional as a share of the balance and the sized
      liquidation; neither from a stale account. */
  lemma {:induction false} PermitOnTicket(t: Ticket, state: AccountState, c: Constitution, session: string)
    requires PermitFor(t, state, c, session).Some?
    ensures var permit := PermitFor(t, state, c, session).value; var p := permit.proposal;
            && p.symbol == t.symbol && p.side == t.side && p.entryPrice == t.entryPrice
            && p.stopPrice == Some(t.stopPrice) && p.takeProfitPrice == t.takeProfitPrice
            && p.riskPercent == t.riskPercent && p.leverage == t.leverage
            && p.correlationBucket == t.correlationBucket
            && permit.state == state && permit.decision == EvaluatePermit(p, state, c, session)
            && (permit.sizing.Some? <==> !state.isStale)
            && match permit.sizing
               case None => p.proposedNotionalPercent == 0.0 && p.liquidationPrice == None
               case Some(r) => && p.liquidationPrice == r.liquidationPrice
                               && p.proposedNotionalPercent * state.balance == r.notional * 100.0
                               && SizingOf(t, state) == Sized(r)
  {
    hide SizePosition, EvaluatePermit;
    var permit := PermitFor(t, state, c, session).value;
    if permit.sizing.Some? {
      SizedNeedsBalance(t, state);
      Undo(permit.sizing.value.notional, state.balance);
      PercentOf(permit.sizing.value.notional, state.balance);
    }
  }

  lemma {:induction false} SizedNeedsBalance(t: Ticket, state: AccountState)
    requires SizingOf(t, state).Sized?
    ensures state.balance > 0.0
  {}

  lemma {:induction false} PercentOf(part: real, whole: real)
    requires whole > 0.0
    ensures part / whole * 100.0 * whole == part * 100.0
  {
    var share := part / whole;
    assert share * whole == part;
  }

  // ---------------------------------------------------------------- fail closed

  /** Whatever could not be read fresh makes the request a persisted rejection that says so. */
  lemma {:induction false} UnfreshAlwaysRejected(t: Ticket, c: Constitution, fetch: AccountFetch,
                                                 history: BehaviorFetch, session: string)
    requires ErrorsOf(fetch, history) != []
    ensures var permit := PermitFor(t, StateOf(fetch, history), c, session);
            && permit.Some? && permit.value.decision.status == Rejected
               && StaleAccountState in permit.value.decision.reasons
            && permit.value.sizing == None
  {
    var state := StateOf(fetch, history);
    assert state.isStale;
    DecisionMeaning(ProposalOf(t, state, None), state, c, session);
    assert !Passes(StaleAccountState, ProposalOf(t, state, None), state, c, session);
  }

  /** An approval is only ever given on a state read without any dependency error. */
  lemma {:induction false} ApprovalNeedsCleanRead(t: Ticket, c: Constitution, fetch: AccountFetch,
                                                  history: BehaviorFetch, session: string)
    requires var permit := PermitFor(t, StateOf(fetch, history), c, session);
             permit.Some? && permit.value.decision.status == Approved
    ensures ErrorsOf(fetch, history) == [] && fetch.Fetched? && history.Flags?
    ensures forall flag :: flag in history.flags ==> !(flag in c.bindingCooldowns && c.bindingCooldowns[flag])
  {
    if ErrorsOf(fetch, history) != [] { UnfreshAlwaysRejected(t, c, fetch, history, session); }
    var permit := PermitFor(t, StateOf(fetch, history), c, session).value;
    DecisionMeaning(permit.proposal, permit.state, c, session);
    assert Passes(BindingCooldownActive, permit.proposal, permit.state, c, session);
  }

  /** "The permit is always persisted" fails exactly for a fresh account without a positive balance. */
  lemma {:induction false} PersistedIff(t: Ticket, c: Constitution, state: AccountState, session: string)
    requires ValidTicket(t)
    ensures PermitFor(t, state, c, session).Some? <==> state.isStale || state.balance > 0.0
  {
    assert MIN_RISK_FRACTION <= t.riskPercent / 100.0 <= MAX_RISK_FRACTION;
  }

  // ---------------------------------------------------------------- what an approval guarantees

  /** `q` units stopped out at distance `d` lose at most that percentage of the balance. */
  predicate LosesAtMost(q: real, d: real, balance: real, percent: real) { q * d <= balance * (percent / 100.0) }

  lemma {:induction false} BudgetLosesAtMost(balance: real, entry: real, stop: real, percent: real)
    requires balance > 0.0 && percent > 0.0 && entry != stop
    ensures LosesAtMost(BudgetQuantity(balance, entry, stop, percent / 100.0, DEFAULT_FILTERS), Abs(entry - stop),
                        balance, percent)
  {
    BudgetQuantitySpends(balance, entry, stop, percent / 100.0, DEFAULT_FILTERS, 0);
  }

  /** What sizing alone promises a valid ticket. */
  lemma {:induction false} SizedTicket(t: Ticket, state: AccountState)
    requires ValidTicket(t) && SizingOf(t, state).Sized? && SizingOf(t, state).result.approved
    ensures var r := SizingOf(t, state).result;
            && StopOnRightSide(t.side, t.entryPrice, t.stopPrice) && r.quantity > 0.0
            && LosesAtMost(r.quantity, Abs(t.entryPrice - t.stopPrice), state.balance, t.riskPercent)
            && state.balance > 0.0 && (r.liquidationPrice.Some? <==> t.leverage > 1.0)
  {
    ApprovedShape(t.side, state.balance, t.entryPrice, t.stopPrice, t.riskPercent / 100.0, DEFAULT_FILTERS, t.leverage,
                  DEFAULT_MAINTENANCE_MARGIN_RATE);
    BudgetLosesAtMost(state.balance, t.entryPrice, t.stopPrice, t.riskPercent);
    assert SizingOf(t, state).result.quantity
        == BudgetQuantity(state.balance, t.entryPrice, t.stopPrice, t.riskPercent / 100.0, DEFAULT_FILTERS);
  }

  lemma {:induction false} TicketSizedIff(t: Ticket, state: AccountState)
    requires ValidTicket(t) && state.balance > 0.0 && StopOnRightSide(t.side, t.entryPrice, t.stopPrice)
    ensures SizingOf(t, state).Sized?
    ensures SizingOf(t, state).result.approved
            <==> && OnTick(t.entryPrice, 0.01) && OnTick(t.stopPrice, 0.01)
                 && MeetsMinimums(BudgetQuantity(state.balance, t.entryPrice, t.stopPrice, t.riskPercent / 100.0,
                                                 DEFAULT_FILTERS),
                                  t.entryPrice, DEFAULT_FILTERS)
  {
    ApprovedIff(t.side, state.balance, t.entryPrice, t.stopPrice, t.riskPercent / 100.0, DEFAULT_FILTERS, t.leverage,
                DEFAULT_MAINTENANCE_MARGIN_RATE);
  }

  lemma {:induction false} LargerShare(q: real, d: real, balance: real, percent: real, cap: real)
    requires LosesAtMost(q, d, balance, percent) && percent <= cap && balance > 0.0
    ensures LosesAtMost(q, d, balance, cap)
  {
    MulMonotone(percent / 100.0, cap / 100.0, balance);
  }

  predicate PastStop(side: Side, stop: real, liquidation: Option<real>) {
    liquidation == None || if side == Long then liquidation.value < stop else liquidation.value > stop
  }

  function Exposure(state: AccountState, bucket: string): real {
    if bucket in state.exposureByBucket then state.exposureByBucket[bucket] else 0.0
  }

  /** What the account and the lists had to be for an approval. */
  ghost predicate AccountAllows(symbol: string, state: AccountState, c: Constitution, session: string) {
    && (c.dailyLossLimitPercent > 0.0 ==> -c.dailyLossLimitPercent < state.dailyPnlPercent)
    && (c.weeklyLossLimitPercent > 0.0 ==> -c.weeklyLossLimitPercent < state.weeklyPnlPercent)
    && state.openPositionCount < c.maxConcurrentPositions
    && (c.allowedSymbols == {} || symbol in c.allowedSymbols)
    && (c.allowedSessions == {} || session in c.allowedSessions)
    && !state.isStale
    && forall flag :: flag in state.behaviorFlags && flag in c.bindingCooldowns ==> !c.bindingCooldowns[flag]
  }

  lemma {:induction false} ApprovalAllows(p: TradeProposal, state: AccountState, c: Constitution, session: string)
    requires EvaluatePermit(p, state, c, session).status == Approved
    ensures AccountAllows(p.symbol, state, c, session) && 0.5 <= p.riskPercent <= 3.0
  {
    DecisionMeaning(p, state, c, session);
    ReasonsOnFields(p, state, c, session);
    hide EvaluatePermit;
  }

  /** The checks an approval passed, read for a proposal with a stop on its side. */
  lemma {:induction false} ApprovalMeans(p: TradeProposal, state: AccountState, c: Constitution, session: string)
    requires EvaluatePermit(p, state, c, session).status == Approved
    ensures p.riskPercent <= c.riskPerTradePercent && p.leverage <= c.maxLeverage && !state.isStale
    ensures Exposure(state, p.correlationBucket) + p.proposedNotionalPercent <= c.maxCorrelatedExposurePercent
    ensures p.stopPrice.Some? && RiskReward(p) >= c.minRiskReward
    ensures StopOnRightSide(p.side, p.entryPrice, p.stopPrice.value) ==>
            PastStop(p.side, p.stopPrice.value, p.liquidationPrice)
  {
    DecisionMeaning(p, state, c, session);
    assert Passes(RiskPctOutOfBand, p, state, c, session) && Passes(MaxLeverage, p, state, c, session);
    assert Passes(MaxCorrelatedExposure, p, state, c, session) && Passes(StaleAccountState, p, state, c, session);
    assert Passes(StopMissing, p, state, c, session) && Passes(RrBelowMin, p, state, c, session);
    assert Passes(LiquidationInsideStop, p, state, c, session);
  }

  /** A sized approval loses at most the constitution's risk at its stop, keeps its bucket within the cap, has any
      estimated liquidation strictly past the stop, and comes from an account within both loss limits. */
  lemma {:induction false} ApprovedPermitIsSafe(t: Ticket, c: Constitution, state: AccountState, session: string)
    requires ValidTicket(t)
    requires var permit := PermitFor(t, state, c, session);
             permit.Some? && permit.value.decision.status == Approved && permit.value.sizing.Some?
               && permit.value.sizing.value.approved
    ensures var r := PermitFor(t, state, c, session).value.sizing.value;
            && StopOnRightSide(t.side, t.entryPrice, t.stopPrice) && r.quantity > 0.0 && state.balance > 0.0
            && LosesAtMost(r.quantity, Abs(t.entryPrice - t.stopPrice), state.balance, c.riskPerTradePercent)
            && t.leverage <= c.maxLeverage
            && Exposure(state, t.correlationBucket) + r.notional / state.balance * 100.0
               <= c.maxCorrelatedExposurePercent
            && (r.liquidationPrice.Some? <==> t.leverage > 1.0) && PastStop(t.side, t.stopPrice, r.liquidationPrice)
    ensures AccountAllows(t.symbol, state, c, session) && 0.5 <= t.riskPercent <= 3.0
  {
    SizedTicket(t, state);
    var r := SizingOf(t, state).result;
    assert PermitFor(t, state, c, session).value.proposal == ProposalOf(t, state, Some(r));
    ApprovalMeans(ProposalOf(t, state, Some(r)), state, c, session);
    ApprovalAllows(ProposalOf(t, state, Some(r)), state, c, session);
    LargerShare(r.quantity, Abs(t.entryPrice - t.stopPrice), state.balance, t.riskPercent, c.riskPerTradePercent);
  }

  /** Meeting the minimum risk/reward puts the stop on its side. */
  lemma {:induction false} RewardNeedsStopSide(p: TradeProposal, c: Constitution)
    requires p.stopPrice.Some? && RiskReward(p) >= c.minRiskReward > 0.0
    ensures StopOnRightSide(p.side, p.entryPrice, p.stopPrice.value)
  {}

  /** Approval never looks at whether sizing succeeded. With the minimum risk/reward a valid constitution
      has, an approved permit is sized exactly when both prices are on tick and the budget's quantity
      meets the exchange minimums. */
  lemma {:induction false} ApprovedPermitSizedIff(t: Ticket, c: Constitution, state: AccountState, session: string)
    requires ValidTicket(t) && c.minRiskReward > 0.0
    requires var permit := PermitFor(t, state, c, session); permit.Some? && permit.value.decision.status == Approved
    ensures var permit := PermitFor(t, state, c, session).value;
            && permit.sizing.Some? && StopOnRightSide(t.side, t.entryPrice, t.stopPrice)
            && (permit.sizing.value.approved
                <==> && OnTick(t.entryPrice, 0.01) && OnTick(t.stopPrice, 0.01)
                     && MeetsMinimums(BudgetQuantity(state.balance, t.entryPrice, t.stopPrice, t.riskPercent / 100.0,
                                                     DEFAULT_FILTERS),
                                      t.entryPrice, DEFAULT_FILTERS))
  {
    var permit := PermitFor(t, state, c, session).value;
    ApprovalMeans(permit.proposal, state, c, session);
    RewardNeedsStopSide(permit.proposal, c);
    PersistedIff(t, c, state, session);
    TicketSizedIff(t, state);
  }

  const SMALL_TICKET := Ticket("BTCUSDT", Long, 50000.0, 49000.0, Some(53000.0), 1.0, 125.0, "btc")
  const SMALL_ACCOUNT := AccountState(10.0, 0, 0.0, 0.0, map[], {}, false)
  const LENIENT := Constitution(1.0, 0.0, 0.0, 125.0, 3, 100.0, 2.0, {}, {}, map[])

  /** The same ticket on a fresh account with nothing in it persists no permit at all. */
  lemma {:induction false} EmptyAccountPersistsNothing(c: Constitution, session: string)
    ensures PermitFor(SMALL_TICKET, SMALL_ACCOUNT.(balance := 0.0), c, session) == None
  {
    PersistedIff(SMALL_TICKET, c, SMALL_ACCOUNT.(balance := 0.0), session);
  }

  const SMALL_PROPOSAL := TradeProposal("BTCUSDT", Long, 50000.0, Some(49000.0), Some(53000.0), 1.0, 125.0, "btc", 0.0,
                                        None)

  lemma {:induction false} SmallProposalPasses()
    ensures EvaluatePermit(SMALL_PROPOSAL, SMALL_ACCOUNT, LENIENT, "asia").status == Approved
  {
    DecisionMeaning(SMALL_PROPOSAL, SMALL_ACCOUNT, LENIENT, "asia");
    assert RiskReward(SMALL_PROPOSAL) == 3.0;
    forall k ensures Passes(k, SMALL_PROPOSAL, SMALL_ACCOUNT, LENIENT, "asia") {}
  }

  lemma {:induction false} SmallTicketUnsized()
    ensures SizingOf(SMALL_TICKET, SMALL_ACCOUNT)
            == Sized(Rejection(Long, 10.0, 50000.0, 49000.0, 0.01, 0.0, 0.0, BelowMinQty))
  {
    assert BudgetQuantity(10.0, 50000.0, 49000.0, 0.01, DEFAULT_FILTERS) == 0.0 by {
      assert 10.0 * 0.01 / 1000.0 == 0.0001;
      assert 0.0001 / 0.001 == 0.1;
    }
    assert OnTick(50000.0, 0.01) && OnTick(49000.0, 0.01);
  }

  /** So an approval need not be sized: a balance of 10 cannot buy one step, yet the permit is approved, and
      at leverage 125 the liquidation estimate it never computed lies between stop and entry. */
  lemma {:induction false} UnsizedCanBeApproved()
    ensures ValidTicket(SMALL_TICKET)
    ensures var permit := PermitFor(SMALL_TICKET, SMALL_ACCOUNT, LENIENT, "asia");
            && permit.Some? && permit.value.decision.status == Approved
            && permit.value.sizing.Some? && permit.value.sizing.value.rejectReason == Some(BelowMinQty)
    ensures var liquidation := LiquidationEstimate(Long, SMALL_TICKET.entryPrice, SMALL_TICKET.leverage,
                                                   DEFAULT_MAINTENANCE_MARGIN_RATE);
            liquidation.Some? && SMALL_TICKET.stopPrice < liquidation.value < SMALL_TICKET.entryPrice
  {
    SmallTicketUnsized();
    SmallProposalPasses();
    assert ProposalOf(SMALL_TICKET, SMALL_ACCOUNT, Some(SizingOf(SMALL_TICKET, SMALL_ACCOUNT).result))
           == SMALL_PROPOSAL;
  }
}
