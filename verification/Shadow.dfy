/** The shadow record (engine/smc/shadow.py): settlement of favored calls, the record per setup and
    regime, and the demotion it drives. */
module Shadow {
  import opened Types
  import opened Horizons
  import opened Tracker
  import opened Quant
  import opened Intent
  import Sorting

  datatype ShadowStatus = Active | HitStop | HitTarget1 | HitTarget2 | TimedOut

  datatype ShadowSignal = ShadowSignal(
    intent: TradingIntent, timeframe: Timeframe, direction: Side, setup: SetupType, regime: MarketRegime,
    entry: real, stop: real, target1: real, target2: real, openedAtMs: Option<int>, status: ShadowStatus,
    closedAt: Option<int>, closePrice: Option<real>, resultR: Option<real>, engineVersion: Option<string>)

  datatype ShadowPatch = ShadowPatch(status: ShadowStatus, closePrice: real, closedAt: int, resultR: real)

  // ---------------------------------------------------------------- settlement

  function LevelsOf(s: ShadowSignal): ExitLevels { ExitLevels(s.direction, s.entry, s.stop, s.target1, s.target2) }

  function StatusOf(exit: ExitStatus): ShadowStatus {
    match exit case StoppedOut => HitStop case Target1Hit => HitTarget1 case Target2Hit => HitTarget2
  }

  function Exposed(s: ShadowSignal, bars: seq<Candle>): seq<Candle>
    requires s.openedAtMs.Some?
  {
    Take(Since(bars, s.openedAtMs.value + 1), MaxHoldBars(s.intent))
  }

  function SettleShadow(s: ShadowSignal, bars: seq<Candle>): Option<ShadowPatch> {
    if s.status != Active || s.openedAtMs == None then None
    else
      var held, maxBars := Exposed(s, bars), MaxHoldBars(s.intent);
      match ExitOf(LevelsOf(s), held)
      case Some(e) =>
      Some(ShadowPatch(StatusOf(e.status), e.exitLevel, e.barTime + StepSeconds(s.timeframe), e.resultR))
      case None =>
        if |held| < maxBars then None
        else
          var last := held[maxBars - 1];
          Some(ShadowPatch(TimedOut, last.close, last.time + StepSeconds(s.timeframe),
                           ResultR(s.direction, s.entry, s.stop, last.close)))
  }

  method SettleShadowSignal(s: ShadowSignal, bars: seq<Candle>) returns (patch: Option<ShadowPatch>)
    ensures patch == SettleShadow(s, bars)
  {
    if s.status != Active || s.openedAtMs == None {
      return None;
    }
    var maxBars := MaxHoldBars(s.intent);
    var held := Take(Since(bars, s.openedAtMs.value + 1), maxBars);
    var exit := WalkExitLevels(LevelsOf(s), held);
    if exit.Some? {
      var e := exit.value;
      return Some(ShadowPatch(StatusOf(e.status), e.exitLevel, e.barTime + StepSeconds(s.timeframe), e.resultR));
    }
    if |held| >= maxBars {
      var last := held[maxBars - 1];
      var risk := Abs(s.entry - s.stop);
      var r := 0.0;
      if risk > 0.0 {
        r := Round2((if s.direction == Long then last.close - s.entry else s.entry - last.close) / risk);
      }
      return Some(ShadowPatch(TimedOut, last.close, last.time + StepSeconds(s.timeframe), r));
    }
    return None;
  }

  /** A settled call settles the same way on every longer batch. */
  lemma {:induction false} ShadowPatchStands(s: ShadowSignal, a: seq<Candle>, b: seq<Candle>)
    requires SettleShadow(s, a).Some?
    ensures SettleShadow(s, a + b) == SettleShadow(s, a)
  {
    SinceConcat(a, b, s.openedAtMs.value + 1);
    var short, long := Exposed(s, a), Exposed(s, a + b);
    assert long == short + long[|short|..];
    ExitConcat(LevelsOf(s), short, long[|short|..]);
    if |short| >= MaxHoldBars(s.intent) { assert long == short; }
  }

  /** The exit is the earliest bar of the hold to touch a level, and a call times out exactly when a
      full hold touches none. */
  lemma {:induction false} ShadowExitMeaning(s: ShadowSignal, bars: seq<Candle>)
    requires s.status == Active && s.openedAtMs.Some?
    ensures var held, levels := Exposed(s, bars), LevelsOf(s);
            var patch := SettleShadow(s, bars);
            && (forall i :: FirstTouchAt(levels, held, i) ==>
                  var e := EventOn(levels, held[i]);
                  patch == Some(ShadowPatch(StatusOf(e.status), e.exitLevel, held[i].time + StepSeconds(s.timeframe),
                                            e.resultR)))
            && ((patch.Some? && patch.value.status == TimedOut)
                <==> |held| == MaxHoldBars(s.intent) && forall i :: 0 <= i < |held| ==> !Touches(levels, held[i]))
  {
    var held, levels := Exposed(s, bars), LevelsOf(s);
    forall i | FirstTouchAt(levels, held, i)
      ensures ExitOf(levels, held) == Some(EventOn(levels, held[i]))
    {
      ExitIsEarliestTouch(levels, held, EventOn(levels, held[i]));
    }
    ExitIsEarliestTouch(levels, held, EventOn(levels, Candle(0, 0.0, 0.0, 0.0, 0.0)));
  }

  /** A call on bars: `k` is the first after it was adopted, and every bar up to `i` touches none of its levels. */
  ghost predicate UntouchedTo(s: ShadowSignal, bars: seq<Candle>, k: nat, i: nat) {
    && s.openedAtMs.Some? && Ascending(bars) && k <= i <= |bars|
    && (k > 0 ==> bars[k - 1].time * 1000 <= s.openedAtMs.value)
    && (k < |bars| ==> s.openedAtMs.value < bars[k].time * 1000)
    && forall j :: k <= j < i ==> Untouched(LevelsOf(s), bars[j])
  }

  lemma {:induction false} ExposedBars(s: ShadowSignal, bars: seq<Candle>, k: nat, i: nat)
    requires UntouchedTo(s, bars, k, i)
    ensures Exposed(s, bars) == Take(bars[k..], MaxHoldBars(s.intent))
  {
    SinceIsSuffix(bars, s.openedAtMs.value + 1, k);
  }

  /** What a call settles as: at the first touching bar inside its hold the stop, else the far target, else the near
      one, with that level's R; at the last close of a hold that touches nothing; and not before. */
  lemma {:induction false} ShadowOnBars(s: ShadowSignal, bars: seq<Candle>, k: nat, i: nat)
    requires s.status == Active && UntouchedTo(s, bars, k, i) && i <= k + MaxHoldBars(s.intent)
    ensures var n, step := MaxHoldBars(s.intent), StepSeconds(s.timeframe);
            var r := (exit: real) => ResultR(s.direction, s.entry, s.stop, exit);
            if i == k + n then
              SettleShadow(s, bars)
              == Some(ShadowPatch(TimedOut, bars[i - 1].close, bars[i - 1].time + step, r(bars[i - 1].close)))
            else if i == |bars| then SettleShadow(s, bars) == None
            else
              (!Untouched(LevelsOf(s), bars[i]) ==>
                var (status, level) :=
                  if TradesBack(s.direction, s.stop, bars[i]) then (HitStop, s.stop)
                  else if TradesOut(s.direction, s.target2, bars[i]) then (HitTarget2, s.target2)
                  else (HitTarget1, s.target1);
                SettleShadow(s, bars) == Some(ShadowPatch(status, level, bars[i].time + step, r(level))))
  {
    hide StepSeconds, ResultR, ExitOf, Untouched, Exposed, TradesBack, TradesOut, SettleShadow, Ascending;
    var held := Take(bars[k..], MaxHoldBars(s.intent));
    HeldExit(s, bars, k, i);
    SettleByExit(s, bars);
    hide MaxHoldBars;
    assert i < |bars| && i - k < |held| ==> held[i - k] == bars[i];
    assert i > k && i - k == |held| ==> held[i - k - 1] == bars[i - 1];
  }

  lemma {:induction false} HeldExit(s: ShadowSignal, bars: seq<Candle>, k: nat, i: nat)
    requires UntouchedTo(s, bars, k, i) && i <= k + MaxHoldBars(s.intent)
    ensures Exposed(s, bars) == Take(bars[k..], MaxHoldBars(s.intent))
    ensures var levels, held := LevelsOf(s), Exposed(s, bars);
            && i - k <= |held|
            && (i - k == |held| ==> ExitOf(levels, held) == None)
            && (i - k < |held| && !Untouched(levels, bars[i]) ==>
                  var (status, level) :=
                    if TradesBack(s.direction, s.stop, bars[i]) then (StoppedOut, s.stop)
                    else if TradesOut(s.direction, s.target2, bars[i]) then (Target2Hit, s.target2)
                    else (Target1Hit, s.target1);
                  ExitOf(levels, held)
                  == Some(ExitEvent(status, level, bars[i].time, ResultR(s.direction, s.entry, s.stop, level))))
  {
    hide MaxHoldBars, ResultR, ExitOf, Untouched, TradesBack, TradesOut, Exposed;
    var held := Take(bars[k..], MaxHoldBars(s.intent));
    ExposedBars(s, bars, k, i);
    assert forall j :: 0 <= j < |held| ==> held[j] == bars[k + j];
    ExitOnBars(LevelsOf(s), held, i - k);
  }

  lemma {:induction false} SettleByExit(s: ShadowSignal, bars: seq<Candle>)
    requires s.status == Active && s.openedAtMs.Some?
    ensures var held, n, step := Exposed(s, bars), MaxHoldBars(s.intent), StepSeconds(s.timeframe);
            SettleShadow(s, bars)
            == match ExitOf(LevelsOf(s), held)
               case Some(e) => Some(ShadowPatch(StatusOf(e.status), e.exitLevel, e.barTime + step, e.resultR))
               case None =>
                 if |held| < n then None
                 else Some(ShadowPatch(TimedOut, held[n - 1].close, held[n - 1].time + step,
                                       ResultR(s.direction, s.entry, s.stop, held[n - 1].close)))
  {}

  // ---------------------------------------------------------------- the record per combination

  datatype ComboStat = ComboStat(setup: SetupType, regime: MarketRegime, closed: nat, winRate: real, averageR: real,
                                 demoted: bool)

  const MIN_SHADOW_RECORD_TRADES := 15

  type Combo = (SetupType, MarketRegime)

  predicate Counted(s: ShadowSignal, version: Option<string>) {
    s.status != Active && (version == None || s.engineVersion == version)
  }

  /** The R of every closed call of the combination, in record order. */
  function ComboRs(signals: seq<ShadowSignal>, version: Option<string>, combo: Combo): seq<real> {
    if |signals| == 0 then []
    else
      var s := signals[|signals| - 1];
      ComboRs(signals[..|signals| - 1], version, combo)
      + if Counted(s, version) && (s.setup, s.regime) == combo then [if s.resultR.Some? then s.resultR.value else 0.0]
        else []
  }

  function Sum(rs: seq<real>): real { if |rs| == 0 then 0.0 else Sum(rs[..|rs| - 1]) + rs[|rs| - 1] }

  function Wins(rs: seq<real>): nat {
    if |rs| == 0 then 0 else Wins(rs[..|rs| - 1]) + if rs[|rs| - 1] > 0.0 then 1 else 0
  }

  function StatFor(combo: Combo, rs: seq<real>): ComboStat
    requires |rs| > 0
  {
    var average := Round2(Sum(rs) / |rs| as real);
    ComboStat(combo.0, combo.1, |rs|, RoundHalfUp(Wins(rs) as real / |rs| as real * 100.0, 10.0), average,
              |rs| >= MIN_SHADOW_RECORD_TRADES && average < 0.0)
  }

  /** Closed calls of the combination, of the engine version asked for or of any. */
  ghost predicate CallOf(s: ShadowSignal, version: Option<string>, combo: Combo) {
    && s.status in {HitStop, HitTarget1, HitTarget2, TimedOut} && s.setup == combo.0 && s.regime == combo.1
    && match version case None => true case Some(v) => s.engineVersion == Some(v)
  }

  /** The bucket holds one R per such call, zero when none was recorded. */
  lemma {:induction false} CallsInOrder(signals: seq<ShadowSignal>, version: Option<string>, combo: Combo)
    returns (at: seq<nat>)
    ensures |at| == |ComboRs(signals, version, combo)|
    ensures forall j, k :: 0 <= j < k < |at| ==> at[j] < at[k]
    ensures forall i :: i in at <==> 0 <= i < |signals| && CallOf(signals[i], version, combo)
    ensures forall j :: 0 <= j < |at| ==>
              && at[j] < |signals|
              && ComboRs(signals, version, combo)[j] == ResultOf(signals[at[j]])
  {
    if |signals| == 0 {
      at := [];
    } else {
      var n, init := |signals| - 1, signals[..|signals| - 1];
      var before := CallsInOrder(init, version, combo);
      ComboGrows(signals, version, combo);
      hide CallOf, ComboRs;
      at := before + if CallOf(signals[n], version, combo) then [n] else [];
      forall j | 0 <= j < |before| ensures before[j] < n { assert before[j] in before; }
      assert forall i :: 0 <= i < n ==> init[i] == signals[i];
    }
  }

  function ResultOf(s: ShadowSignal): real { match s.resultR case None => 0.0 case Some(r) => r }

  lemma {:induction false} ComboGrows(signals: seq<ShadowSignal>, version: Option<string>, combo: Combo)
    requires |signals| > 0
    ensures var n := |signals| - 1;
            ComboRs(signals, version, combo)
            == ComboRs(signals[..n], version, combo)
               + if CallOf(signals[n], version, combo) then [ResultOf(signals[n])] else []
  {}

  lemma {:induction false} WinsArePositive(rs: seq<real>)
    ensures Wins(rs) == |set i | 0 <= i < |rs| && rs[i] > 0.0|
  {
    var all := set i | 0 <= i < |rs| && rs[i] > 0.0;
    if |rs| == 0 {
      assert all == {};
    } else {
      var n, init := |rs| - 1, rs[..|rs| - 1];
      WinsArePositive(init);
      assert all == (set i | 0 <= i < |init| && init[i] > 0.0) + if rs[n] > 0.0 then {n} else {};
    }
  }

  /** The row on its calls: how many, the share of winners to the tenth of a percent, their mean R to the hundredth, and
      demoted from fifteen on with that mean below zero. */
  lemma {:induction false} StatOnCalls(combo: Combo, rs: seq<real>)
    requires |rs| > 0
    ensures var st, n := StatFor(combo, rs), |rs| as real;
            && st.setup == combo.0 && st.regime == combo.1 && st.closed == |rs|
            && WithinHalf(st.winRate, 100.0 * |set i | 0 <= i < |rs| && rs[i] > 0.0| as real, n, 10.0)
            && WithinHalf(st.averageR, Sum(rs), n, 100.0)
            && (st.demoted <==> st.closed >= 15 && st.averageR < 0.0)
  {
    WinsArePositive(rs);
    hide Wins, Sum, WithinHalf;
    PercentWithinHalf(Wins(rs) as real, |rs| as real);
    QuotientWithinHalf(Sum(rs), |rs| as real, 100.0);
  }

  predicate MostTraded(a: ComboStat, b: ComboStat) { a.closed >= b.closed }

  /** The bucket dictionary: every combination with a closed call, keyed once, in first-seen order. */
  ghost predicate BucketsOf(signals: seq<ShadowSignal>, version: Option<string>, keys: seq<Combo>,
                            buckets: map<Combo, seq<real>>) {
    && (forall c :: c in keys <==> c in buckets)
    && (forall i, j :: 0 <= i < j < |keys| ==> keys[i] != keys[j])
    && (forall c :: c in buckets <==> |ComboRs(signals, version, c)| > 0)
    && (forall c :: c in buckets ==> buckets[c] == ComboRs(signals, version, c))
  }

  /** The row is the statistics of its own combination's closed calls. */
  ghost predicate RowOfRecord(signals: seq<ShadowSignal>, version: Option<string>, st: ComboStat) {
    var combo := (st.setup, st.regime);
    |ComboRs(signals, version, combo)| > 0 && st == StatFor(combo, ComboRs(signals, version, combo))
  }

  /** One row per combination with a closed call, each the statistics of exactly that combination's
      calls, most traded first. */
  ghost predicate RecordOf(signals: seq<ShadowSignal>, version: Option<string>, stats: seq<ComboStat>) {
    && (forall st :: st in stats ==> RowOfRecord(signals, version, st))
    && (forall c: Combo :: |ComboRs(signals, version, c)| > 0 ==> StatFor(c, ComboRs(signals, version, c)) in stats)
    && (forall i, j :: 0 <= i < j < |stats| ==> stats[i].closed >= stats[j].closed)
  }

  method FillBuckets(signals: seq<ShadowSignal>, version: Option<string>)
    returns (keys: seq<Combo>, buckets: map<Combo, seq<real>>)
    ensures BucketsOf(signals, version, keys, buckets)
  {
    keys, buckets := [], map[];
    for i := 0 to |signals|
      invariant BucketsOf(signals[..i], version, keys, buckets)
    {
      keys, buckets := AddToBucket(signals[..i], signals[i], version, keys, buckets);
      assert signals[..i] + [signals[i]] == signals[..i + 1];
    }
    assert signals[..|signals|] == signals;
  }

  method AddToBucket(ghost seen: seq<ShadowSignal>, s: ShadowSignal, version: Option<string>, keys: seq<Combo>,
                     buckets: map<Combo, seq<real>>)
    returns (keys': seq<Combo>, buckets': map<Combo, seq<real>>)
    requires BucketsOf(seen, version, keys, buckets)
    ensures BucketsOf(seen + [s], version, keys', buckets')
  {
    keys', buckets' := keys, buckets;
    assert (seen + [s])[..|seen|] == seen;
    if Counted(s, version) {
      var key := (s.setup, s.regime);
      if key !in buckets {
        buckets' := buckets'[key := []];
        keys' := keys' + [key];
      }
      buckets' := buckets'[key := buckets'[key] + [if s.resultR.Some? then s.resultR.value else 0.0]];
    }
  }

  method ShadowComboStats(signals: seq<ShadowSignal>, version: Option<string>) returns (stats: seq<ComboStat>)
    ensures RecordOf(signals, version, stats)
  {
    var keys, buckets := FillBuckets(signals, version);
    var rows: seq<ComboStat> := [];
    for i := 0 to |keys|
      invariant |rows| == i
      invariant forall k :: 0 <= k < i ==> keys[k] in buckets && rows[k] == StatFor(keys[k], buckets[keys[k]])
    {
      assert keys[i] in keys;
      rows := rows + [StatFor(keys[i], buckets[keys[i]])];
    }
    stats := Sorting.Sort(rows, MostTraded);
    RankedRows(signals, version, keys, buckets, rows);
  }

  lemma {:induction false} RankedRows(signals: seq<ShadowSignal>, version: Option<string>, keys: seq<Combo>,
                                      buckets: map<Combo, seq<real>>, rows: seq<ComboStat>)
    requires BucketsOf(signals, version, keys, buckets) && |rows| == |keys|
    requires forall k :: 0 <= k < |keys| ==>
             keys[k] in buckets && |buckets[keys[k]]| > 0 && rows[k] == StatFor(keys[k], buckets[keys[k]])
    ensures RecordOf(signals, version, Sorting.Sort(rows, MostTraded))
  {
    hide ComboRs, StatFor, Sorting.Sort;
    var stats := Sorting.Sort(rows, MostTraded);
    Sorting.SortKeeps(rows, MostTraded);
    Sorting.SortSorted(rows, MostTraded);
    forall st | st in stats ensures RowOfRecord(signals, version, st) {
      var k :| 0 <= k < |rows| && rows[k] == st;
      BucketRow(signals, version, keys, buckets, k);
    }
    forall c: Combo | |ComboRs(signals, version, c)| > 0
      ensures StatFor(c, ComboRs(signals, version, c)) in stats
    {
      assert c in keys;
      var k :| 0 <= k < |keys| && keys[k] == c;
      assert rows[k] in rows;
    }
    forall i, j | 0 <= i < j < |stats| ensures stats[i].closed >= stats[j].closed {
      assert MostTraded(stats[i], stats[j]);
    }
  }

  lemma {:induction false} BucketRow(signals: seq<ShadowSignal>, version: Option<string>, keys: seq<Combo>,
                                     buckets: map<Combo, seq<real>>, k: nat)
    requires BucketsOf(signals, version, keys, buckets) && k < |keys| && keys[k] in buckets && |buckets[keys[k]]| > 0
    ensures RowOfRecord(signals, version, StatFor(keys[k], buckets[keys[k]]))
  {
    hide ComboRs, Sum, Wins, RoundHalfUp;
    var st := StatFor(keys[k], buckets[keys[k]]);
    assert keys[k] == (st.setup, st.regime);
  }

  // ---------------------------------------------------------------- demotion

  datatype RecordNote = RecordNote(demoted: bool)

  datatype ReconcileEntry = ReconcileEntry(assessment: Assessment, record: Option<RecordNote>, favoredBefore: bool)

  function FirstStat(stats: seq<ComboStat>, setup: SetupType, regime: MarketRegime): Option<ComboStat> {
    if |stats| == 0 then None
    else if stats[0].setup == setup && stats[0].regime == regime then Some(stats[0])
    else FirstStat(stats[1..], setup, regime)
  }

  predicate ProvenNegative(a: Assessment, stats: seq<ComboStat>) {
    var combo := FirstStat(stats, a.execution.setup, a.execution.regime);
    combo.Some? && combo.value.closed >= MIN_SHADOW_RECORD_TRADES && combo.value.demoted
  }

  lemma {:induction false} FirstStatFinds(stats: seq<ComboStat>, setup: SetupType, regime: MarketRegime)
    ensures var found := FirstStat(stats, setup, regime);
            && (found.Some? ==> found.value in stats && found.value.setup == setup && found.value.regime == regime)
            && (found.None? ==> forall st :: st in stats ==> st.setup != setup || st.regime != regime)
  {
    if |stats| > 0 { FirstStatFinds(stats[1..], setup, regime); }
  }

  /** Demotion is earned by the record itself: at least fifteen closed calls of exactly this setup and
      regime, with a negative rounded average. */
  lemma {:induction false} ProvenNegativeMeaning(a: Assessment, signals: seq<ShadowSignal>, version: Option<string>,
                                                 stats: seq<ComboStat>)
    requires RecordOf(signals, version, stats)
    ensures var rs := ComboRs(signals, version, (a.execution.setup, a.execution.regime));
            ProvenNegative(a, stats)
            <==> |rs| >= MIN_SHADOW_RECORD_TRADES && Round2(Sum(rs) / |rs| as real) < 0.0
  {
    var combo := (a.execution.setup, a.execution.regime);
    var rs := ComboRs(signals, version, combo);
    FirstStatFinds(stats, combo.0, combo.1);
    if |rs| > 0 { assert StatFor(combo, rs) in stats; }
  }

  function ApplyRecordAdjustment(a: Assessment, stats: seq<ComboStat>): ReconcileEntry {
    var favored := a.verdict == Favored;
    var combo := FirstStat(stats, a.execution.setup, a.execution.regime);
    if combo == None || combo.value.closed < MIN_SHADOW_RECORD_TRADES then ReconcileEntry(a, None, favored)
    else if favored && combo.value.demoted then
      ReconcileEntry(a.(verdict := Caution, sizeMultiplier := 0.5,
                        plan := if a.plan.Some? then Some(ScalePlan(a.plan.value, 0.5)) else None),
                     Some(RecordNote(true)), favored)
    else ReconcileEntry(a, Some(RecordNote(false)), favored)
  }

  /** The note on a call: one exactly from fifteen closed calls of its combination on, and marked demoted exactly when
      the favored call was. */
  lemma {:induction false} NoteOnRecord(a: Assessment, stats: seq<ComboStat>)
    ensures var e, combo := ApplyRecordAdjustment(a, stats), FirstStat(stats, a.execution.setup, a.execution.regime);
            && (e.record.Some? <==> combo.Some? && combo.value.closed >= 15)
            && (e.record.Some? ==> (e.record.value.demoted <==> a.verdict == Favored && combo.value.demoted))
            && (e.favoredBefore <==> a.verdict == Favored)
  {
    hide ScalePlan, FirstStat;
  }

  /** Demotion halves once: a favored full-size plan becomes its half plan, a caution keeps the half it
      already is, so no plan is ever a quarter. */
  lemma {:induction false} AdjustedSized(a: Assessment, stats: seq<ComboStat>, full: RiskPlan)
    requires SizedFrom(a.verdict, a.direction, a.sizeMultiplier, a.plan, full)
    ensures var e := ApplyRecordAdjustment(a, stats).assessment;
            && SizedFrom(e.verdict, e.direction, e.sizeMultiplier, e.plan, full)
            && (e.verdict == Favored <==> a.verdict == Favored && !ProvenNegative(a, stats))
            && (Actionable(e.verdict) <==> Actionable(a.verdict))
  {
    hide ScalePlan, HalfPlan;
    ScalePlanHalves(ScalePlan(full, 0.5), full);
  }
}
