/** Concrete passes (engine/smc/evaluate.py), from the timeframe reads up: one that is adopted again on every
    repeat, and one whose call outlasts its own demotion. */
module PassExamples {
  import opened Types
  import opened Structure
  import opened Horizons
  import opened Quant
  import opened Intent
  import opened Shadow
  import opened Hysteresis
  import opened Evaluate
  import Quotes
  import RiskPlanning

  // ---------------------------------------------------------------- a read that is adopted on every repeat

  const NO_SWINGS := MarketStructure([], Range, None, None, None, None, [], [])

  function FlatPlan(price: real): RiskPlan {
    RiskPlan(None, price, price, price, price, price, 0.0, 750.0, 0.0, 0.0, 0.0)
  }

  /** A read of no setup and no swings: what is left is its regime and its levels. */
  function BareRead(regime: MarketRegime, close: real, support: real, resistance: real): RawRead {
    RawRead(NoClearSetup, regime, NO_SWINGS, 40, false, false, false, true, false, FlatPlan(close), close, None,
            Some(support), Some(resistance), [], [], None, Some(close))
  }

  lemma {:induction false} BareEvaluation(regime: MarketRegime, close: real, support: real, resistance: real)
    ensures var e := EvaluateSignal(BareRead(regime, close, support, resistance));
            && e.regime == regime && e.lean == RegimeLean(regime) && e.decision == NoTrade && e.liquidity == []
            && e.lastClose == close && e.support == Some(support) && e.resistance == Some(resistance)
  {
    hide ReadDraw;
  }

  const GAPPED: seq<Candle> := [Candle(0, 105.0, 110.0, 100.0, 105.0), Candle(14400, 92.0, 93.0, 89.0, 90.0)]

  /** A rising daily tape over two four-hour bars, the second closed below the first. */
  function GappedInput(nowMs: int): PassInput {
    PassInput(map[D1 := BareRead(TrendingUp, 105.0, 95.0, 120.0), H4 := BareRead(RangeBound, 90.0, 100.0, 110.0)],
              map[], map[], None, [], nowMs)
  }

  lemma {:induction false} GapIsRead(nowMs: int)
    ensures ReadsLevels(EvaluateSignal(GappedInput(nowMs).raws[H4]), GAPPED, [])
  {
    BareEvaluation(RangeBound, 90.0, 100.0, 110.0);
    assert GAPPED[0..1] == [GAPPED[0]];
    QuotesOfGap();
    hide Quotes.RoundPrice, EvaluateSignal;
  }

  lemma {:induction false} GapWaits(nowMs: int)
    ensures var a := RawAssessment(GappedInput(nowMs), SwingTrade);
            && a.Some? && a.value.verdict == Wait && a.value.direction == Some(Long)
            && a.value.execution.support == Some(100.0) && a.value.execution.lastClose == 90.0
            && EntryFor(GappedInput(nowMs), SwingTrade) == Some(ReconcileEntry(a.value, None, false))
            && a == RawAssessment(GappedInput(0), SwingTrade)
  {
    BareEvaluation(TrendingUp, 105.0, 95.0, 120.0);
    BareEvaluation(RangeBound, 90.0, 100.0, 110.0);
    hide EvaluateSignal, LimitPlanFor, BareRead;
  }

  /** The reads are those bars' own; the swing trade waits long on them and is adopted again on every repeat. */
  lemma {:induction false} RepeatReadopts(nowMs: int, later: int)
    requires nowMs <= later
    ensures ReadsLevels(EvaluateSignal(GappedInput(nowMs).raws[H4]), GAPPED, [])
    ensures var e := EntryFor(GappedInput(nowMs), SwingTrade);
            && e.Some? && EntryFor(GappedInput(later), SwingTrade) == e
            && e.value.assessment.verdict == Wait && e.value.assessment.direction == Some(Long)
            && !Stands(Some(NextHold(None, e.value, nowMs)), e.value, later)
  {
    GapIsRead(nowMs);
    GapWaits(nowMs);
    GapWaits(later);
    hide EntryFor, RawAssessment, EvaluateSignal, ReadsLevels;
    RepeatIsNoOpIff(None, EntryFor(GappedInput(nowMs), SwingTrade).value, nowMs, later);
  }

  lemma {:induction false} QuotesOfGap()
    ensures Quotes.RoundPrice(90.0) == 90.0 && Quotes.RoundPrice(100.0) == 100.0 && Quotes.RoundPrice(110.0) == 110.0
  {
    Quotes.RoundsToItself(90.0, 10000.0);
    Quotes.RoundsToItself(100.0, 100.0);
    Quotes.RoundsToItself(110.0, 100.0);
  }

  // ---------------------------------------------------------------- such a call and such a record

  const LONG_PLAN := RiskPlan(Some(Long), 100.0, 95.0, 110.0, 115.0, 95.0, 150.0, 750.0, 750.0, 1500.0, 2250.0)

  /** A pullback in a rising tape, between its support and its resistance. */
  const PULLBACK := RawRead(PullbackContinuation, TrendingUp, NO_SWINGS, 80, true, false, false, true, false, LONG_PLAN,
                            100.0, None, Some(95.0), Some(110.0), [], [], None, Some(100.0))

  /** The pullback on the quarter hour under a rising hour. */
  function PullbackInput(stats: seq<ComboStat>, nowMs: int): PassInput {
    PassInput(map[H1 := BareRead(TrendingUp, 100.0, 95.0, 110.0), M15 := PULLBACK], map[], map[], None, stats, nowMs)
  }

  const STOPPED := ShadowSignal(Scalp, M15, Long, PullbackContinuation, TrendingUp, 100.0, 95.0, 110.0, 115.0, Some(0),
                                HitStop, Some(0), Some(95.0), Some(-1.0), None)

  function Losses(n: nat): (s: seq<ShadowSignal>)
    ensures |s| == n
  {
    if n == 0 then [] else Losses(n - 1) + [STOPPED]
  }

  lemma {:induction false} SumSnoc(rs: seq<real>, r: real)
    ensures Sum(rs + [r]) == Sum(rs) + r && Wins(rs + [r]) == Wins(rs) + if r > 0.0 then 1 else 0
  {
    assert (rs + [r])[..|rs|] == rs;
  }

  lemma {:induction false} ComboSnoc(signals: seq<ShadowSignal>, s: ShadowSignal, combo: Combo)
    requires s.status != Active && s.resultR == Some(-1.0)
    ensures var before := ComboRs(signals, None, combo);
            ComboRs(signals + [s], None, combo) == if (s.setup, s.regime) == combo then before + [-1.0] else before
  {
    assert (signals + [s])[..|signals|] == signals;
    assert ComboRs(signals, None, combo) + [] == ComboRs(signals, None, combo);
  }

  lemma {:induction false} NoLosses(combo: Combo)
    ensures var rs := ComboRs(Losses(0), None, combo); rs == [] && Sum(rs) == 0.0 && Wins(rs) == 0
  {}

  lemma {:induction false} LossesCount(n: nat, combo: Combo)
    ensures var rs := ComboRs(Losses(n), None, combo);
            && |rs| == (if combo == (PullbackContinuation, TrendingUp) then n else 0)
            && Sum(rs) == -(|rs| as real) && Wins(rs) == 0
  {
    hide ComboRs, Sum, Wins;
    if n == 0 {
      NoLosses(combo);
    } else {
      LossesCount(n - 1, combo);
      ComboSnoc(Losses(n - 1), STOPPED, combo);
      SumSnoc(ComboRs(Losses(n - 1), None, combo), -1.0);
    }
  }

  const LOSING := ComboStat(PullbackContinuation, TrendingUp, 15, 0.0, -1.0, true)

  /** Fifteen stopped calls make exactly this record. */
  lemma {:induction false} LossesAreTheRecord()
    ensures RecordOf(Losses(15), None, [LOSING])
  {
    var combo: Combo := (PullbackContinuation, TrendingUp);
    forall c: Combo ensures |ComboRs(Losses(15), None, c)| == if c == combo then 15 else 0 { LossesCount(15, c); }
    LossesCount(15, combo);
    var rs := ComboRs(Losses(15), None, combo);
    assert Sum(rs) / |rs| as real == -1.0;
    assert Round2(-1.0) == -1.0 && RoundHalfUp(0.0, 10.0) == 0.0;
    assert StatFor(combo, rs) == LOSING;
    assert LOSING in [LOSING];
  }

  lemma {:induction false} PullbackEvaluation()
    ensures var e := EvaluateSignal(PULLBACK);
            && e.setup == PullbackContinuation && e.regime == TrendingUp && e.decision == BuyCandidate
            && e.lean == Some(Long) && e.lastClose == 100.0 && e.support == Some(95.0)
  {
    hide ReadDraw;
  }

  /** The raw call of that pass, whatever the record: favored at full size. */
  lemma {:induction false} PullbackIsFavored(stats: seq<ComboStat>, nowMs: int)
    ensures var a := RawAssessment(PullbackInput(stats, nowMs), Scalp);
            && a.Some? && a.value.verdict == Favored && a.value.sizeMultiplier == 1.0 && a.value.intent == Scalp
            && a.value.direction == Some(Long) && a.value == RawAssessment(PullbackInput([], 0), Scalp).value
            && var x := a.value.execution;
               && x.setup == PullbackContinuation && x.regime == TrendingUp
               && x.lastClose == 100.0 && x.support == Some(95.0)
  {
    PullbackEvaluation();
    BareEvaluation(TrendingUp, 100.0, 95.0, 110.0);
    hide EvaluateSignal, LimitPlanFor, BareRead, ScalePlan;
  }

  function PullbackCall(): Assessment { RawAssessment(PullbackInput([], 0), Scalp).value }

  lemma {:induction false} PullbackEntry(stats: seq<ComboStat>, nowMs: int)
    ensures EntryFor(PullbackInput(stats, nowMs), Scalp) == Some(ApplyRecordAdjustment(PullbackCall(), stats))
  {
    PullbackIsFavored(stats, nowMs);
    hide RawAssessment, ApplyRecordAdjustment;
  }

  lemma {:induction false} LosingDemotes(a: Assessment)
    requires a.verdict == Favored && a.execution.setup == PullbackContinuation && a.execution.regime == TrendingUp
    ensures ProvenNegative(a, [LOSING]) && ApplyRecordAdjustment(a, [LOSING]).assessment.verdict == Caution
  {
    hide ScalePlan;
  }

  /** Adopted before those fifteen losses, the call is demoted by them in the next pass's own reads and displayed
      favored at full size all the same. */
  lemma {:induction false} DemotionOutlasted()
    ensures RecordOf(Losses(15), None, [LOSING])
    ensures var inputs := [PullbackInput([], 0), PullbackInput([LOSING], 60000)];
            var ticks := TicksOf(inputs, Scalp);
            && |ticks| == 2 && ticks[1].entry.assessment.verdict == Caution
            && var d := ShownAt(None, ticks, 1);
               && d.assessment.verdict == Favored && d.assessment.sizeMultiplier == 1.0
               && d.record == Some(RecordNote(true))
  {
    hide EntryFor, ApplyRecordAdjustment, RawAssessment, RecordOf, ProvenNegative, TicksOf, ShownAt;
    LossesAreTheRecord();
    PullbackIsFavored([], 0);
    var a := PullbackCall();
    LosingDemotes(a);
    HeldFavoredOutlastsDemotion(a, [LOSING], 0, 60000);
    PullbackEntry([], 0);
    PullbackEntry([LOSING], 60000);
    TwoTicks(PullbackInput([], 0), PullbackInput([LOSING], 60000), Scalp);
  }

  lemma {:induction false} TwoTicks(early: PassInput, late: PassInput, intent: TradingIntent)
    requires EntryFor(early, intent).Some? && EntryFor(late, intent).Some?
    ensures TicksOf([early, late], intent) == [Tick(EntryFor(early, intent).value, early.nowMs),
                                               Tick(EntryFor(late, intent).value, late.nowMs)]
  {
    hide EntryFor;
    assert [early, late][..1] == [early] && [early][..0] == [];
    assert TicksOf([], intent) == [];
  }
}
