/** One evaluation pass for a token (engine/smc/evaluate.py), and what holds over every run of passes. */
module Evaluate {
  import opened Types
  import opened Horizons
  import opened Quant
  import opened Intent
  import opened Shadow
  import opened Hysteresis
  import Anticipatory
  import Poi
  import Quotes
  import RiskPlanning
  import Tracker
  import Zones

  /** What one pass reads. A missing timeframe is absent from `raws`, an unread location from `extended`. */
  datatype PassInput = PassInput(raws: map<Timeframe, RawRead>, zones: map<Timeframe, seq<Zones.BaseZone>>,
                                 extended: map<TradingIntent, bool>, perp: Option<PerpRead>, stats: seq<ComboStat>,
                                 nowMs: int)

  const INTENTS: seq<TradingIntent> := [Scalp, Intraday, SwingTrade, Position]

  function ZonesFor(input: PassInput, timeframe: Timeframe): seq<Zones.BaseZone> {
    if timeframe in input.zones then input.zones[timeframe] else []
  }

  /** The raw assessment of one intent; None when either of its timeframes is missing. */
  function RawAssessment(input: PassInput, intent: TradingIntent): Option<Assessment> {
    var c, x := ContextTimeframe(intent), ExecutionTimeframe(intent);
    if c !in input.raws || x !in input.raws then None
    else Some(Assess(intent, EvaluateSignal(input.raws[c]), EvaluateSignal(input.raws[x]),
                     if intent in input.extended then Some(input.extended[intent]) else None,
                     input.perp, ZonesFor(input, x)))
  }

  function EntryFor(input: PassInput, intent: TradingIntent): Option<ReconcileEntry> {
    var a := RawAssessment(input, intent);
    if a == None then None else Some(ApplyRecordAdjustment(a.value, input.stats))
  }

  function EntriesOf(input: PassInput, intents: seq<TradingIntent>): seq<ReconcileEntry> {
    if |intents| == 0 then []
    else
      var e := EntryFor(input, intents[|intents| - 1]);
      EntriesOf(input, intents[..|intents| - 1]) + if e.Some? then [e.value] else []
  }

  /** A shadow record opens only on a call with a plan and a side. */
  function BuildShadow(a: Assessment, nowMs: int): Option<ShadowSignal> {
    if a.plan == None || a.direction == None then None
    else
      var plan := a.plan.value;
      Some(ShadowSignal(a.intent, ExecutionTimeframe(a.intent), a.direction.value, a.execution.setup,
                        a.execution.regime, plan.entry, plan.stop, plan.target1, plan.target2, Some(nowMs), Active,
                        None, None, None, None))
  }

  function ShadowDrafts(adopted: seq<Assessment>, nowMs: int): seq<ShadowSignal> {
    if |adopted| == 0 then []
    else
      var draft := BuildShadow(adopted[|adopted| - 1], nowMs);
      ShadowDrafts(adopted[..|adopted| - 1], nowMs) + if draft.Some? then [draft.value] else []
  }

  /** A call opens a record exactly when it has a plan and a side, and the record is that plan, active, for the call's
      intent on its execution timeframe. */
  lemma {:induction false} ShadowOfCall(a: Assessment, nowMs: int)
    ensures BuildShadow(a, nowMs).Some? <==> a.plan.Some? && a.direction.Some?
    ensures BuildShadow(a, nowMs).Some? ==>
              var s, plan := BuildShadow(a, nowMs).value, a.plan.value;
              && s.status == Active && s.openedAtMs == Some(nowMs) && s.intent == a.intent
                 && Some(s.direction) == a.direction
              && s.setup == a.execution.setup && s.regime == a.execution.regime
              && LevelsOf(s) == Tracker.ExitLevels(s.direction, plan.entry, plan.stop, plan.target1, plan.target2)
              && s.timeframe == ExecutionTimeframe(a.intent) && s.closedAt == None && s.resultR == None
  {}

  /** Every displayed limit plan opens a fill record, whatever the verdict. */
  function LimitDrafts(display: seq<Display>, nowMs: int): seq<Anticipatory.Signal> {
    if |display| == 0 then []
    else
      var a := display[|display| - 1].assessment;
      LimitDrafts(display[..|display| - 1], nowMs)
      + if a.limitPlan.Some? then [Poi.Adopt(a.limitPlan.value, a.intent, ExecutionTimeframe(a.intent), nowMs)] else []
  }

  datatype PassOutput = PassOutput(display: seq<Display>, updates: Holds, shadows: seq<ShadowSignal>,
                                   limits: seq<Anticipatory.Signal>)

  lemma {:induction false} EntriesDistinct(input: PassInput)
    ensures DistinctIntents(EntriesOf(input, INTENTS))
  {
    EntryIntents(input, INTENTS);
  }

  lemma {:induction false} EntryIntents(input: PassInput, intents: seq<TradingIntent>)
    requires forall i, j :: 0 <= i < j < |intents| ==> intents[i] != intents[j]
    ensures DistinctIntents(EntriesOf(input, intents))
    ensures forall e :: e in EntriesOf(input, intents) ==>
            e.assessment.intent in intents && EntryFor(input, e.assessment.intent) == Some(e)
  {
    hide EntryFor;
    if |intents| > 0 {
      var init, last := intents[..|intents| - 1], intents[|intents| - 1];
      EntryIntents(input, init);
      if EntryFor(input, last).Some? { EntryIntent(input, last); }
      assert intents == init + [last];
      assert last !in init;
      var before := EntriesOf(input, init);
      forall i | 0 <= i < |before| ensures before[i].assessment.intent != last { assert before[i] in before; }
    }
  }

  method EvaluateSymbol(input: PassInput, holds: Holds) returns (out: Option<PassOutput>)
    ensures var entries := EntriesOf(input, INTENTS);
            && (out == None <==> entries == [])
            && (out.Some? ==>
                  && AllShown(entries, holds, input.nowMs, out.value.display)
                  && AllUpdated(entries, holds, input.nowMs, out.value.updates)
                  && out.value.shadows == ShadowDrafts(Opened(entries, holds, input.nowMs), input.nowMs)
                  && out.value.limits == LimitDrafts(out.value.display, input.nowMs))
  {
    var entries := EntriesOf(input, INTENTS);
    if entries == [] {
      return None;
    }
    EntriesDistinct(input);
    var display, updates, adopted := ReconcileHolds(entries, holds, input.nowMs);
    out := Some(PassOutput(display, updates, ShadowDrafts(adopted, input.nowMs), LimitDrafts(display, input.nowMs)));
  }

  // ---------------------------------------------------------------- one pass

  /** Whatever the reads, an entry's plan and size come from its own execution plan: present exactly on
      favored and caution, full on favored, the half plan on caution. */
  lemma {:induction false} EntrySized(input: PassInput, intent: TradingIntent)
    requires EntryFor(input, intent).Some?
    ensures var a := EntryFor(input, intent).value.assessment;
            && a.intent == intent && SizedFrom(a.verdict, a.direction, a.sizeMultiplier, a.plan, a.execution.risk)
            && (EntryFor(input, intent).value.favoredBefore ==> a.plan.Some? && a.direction.Some?)
  {
    var x := input.raws[ExecutionTimeframe(intent)];
    var c := input.raws[ContextTimeframe(intent)];
    CandidatesAgree(x);
    var extended := if intent in input.extended then Some(input.extended[intent]) else None;
    AssessmentSized(intent, EvaluateSignal(c), EvaluateSignal(x), extended, input.perp,
                    ZonesFor(input, ExecutionTimeframe(intent)));
    var a := RawAssessment(input, intent).value;
    AdjustedSized(a, input.stats, a.execution.risk);
  }

  /** Every adoption that was favored before demotion opens a shadow record: none is dropped. */
  lemma {:induction false} FavoredAdoptionsOpen(input: PassInput, holds: Holds)
    ensures var adopted := Opened(EntriesOf(input, INTENTS), holds, input.nowMs);
            var drafts := ShadowDrafts(adopted, input.nowMs);
            |drafts| == |adopted| && forall i :: 0 <= i < |adopted| ==>
              BuildShadow(adopted[i], input.nowMs) == Some(drafts[i])
  {
    EntryIntents(input, INTENTS);
    OpenedHavePlans(input, EntriesOf(input, INTENTS), holds);
    DraftsComplete(Opened(EntriesOf(input, INTENTS), holds, input.nowMs), input.nowMs);
  }

  lemma {:induction false} OpenedHavePlans(input: PassInput, entries: seq<ReconcileEntry>, holds: Holds)
    requires forall e :: e in entries ==> EntryFor(input, e.assessment.intent) == Some(e)
    ensures forall a :: a in Opened(entries, holds, input.nowMs) ==> a.plan.Some? && a.direction.Some?
  {
    if |entries| > 0 {
      var init, e := entries[..|entries| - 1], entries[|entries| - 1];
      assert e in entries && forall d :: d in init ==> d in entries;
      OpenedHavePlans(input, init, holds);
      EntrySized(input, e.assessment.intent);
    }
  }

  lemma {:induction false} DraftsComplete(adopted: seq<Assessment>, nowMs: int)
    requires forall a :: a in adopted ==> a.plan.Some? && a.direction.Some?
    ensures var drafts := ShadowDrafts(adopted, nowMs);
            |drafts| == |adopted| && forall i :: 0 <= i < |adopted| ==>
              BuildShadow(adopted[i], nowMs) == Some(drafts[i])
  {
    if |adopted| > 0 {
      assert adopted[|adopted| - 1] in adopted;
      DraftsComplete(adopted[..|adopted| - 1], nowMs);
    }
  }

  // ---------------------------------------------------------------- the limit records

  /** Every limit plan displayed has sound geometry, whether its hold stands or is new. */
  lemma {:induction false} EntryLimitSound(input: PassInput, intent: TradingIntent)
    requires EntryFor(input, intent).Some?
    ensures var plan := EntryFor(input, intent).value.assessment.limitPlan;
            plan.Some? ==> Poi.SoundGeometry(plan.value)
  {
    hide EvaluateSignal, LimitPlanFor, FinalVerdict, ScalePlan;
    var x := input.raws[ExecutionTimeframe(intent)];
    ReadPlanSound(x);
    LimitPlanSound(RawAssessment(input, intent).value.direction, EvaluateSignal(x),
                   ZonesFor(input, ExecutionTimeframe(intent)));
  }

  /** What a limit draft opened by a pass is: the adoption of a plan of sound geometry. */
  ghost predicate SoundDraft(s: Anticipatory.Signal, nowMs: int) {
    exists plan, intent :: Poi.SoundGeometry(plan) && s == Poi.Adopt(plan, intent, ExecutionTimeframe(intent), nowMs)
  }

  lemma {:induction false} DraftsSound(display: seq<Display>, nowMs: int)
    requires forall d :: d in display && d.assessment.limitPlan.Some? ==>
             Poi.SoundGeometry(d.assessment.limitPlan.value)
    ensures forall s :: s in LimitDrafts(display, nowMs) ==> SoundDraft(s, nowMs)
  {
    if |display| > 0 {
      var init, a := display[..|display| - 1], display[|display| - 1].assessment;
      assert display[|display| - 1] in display;
      DraftsSound(init, nowMs);
      if a.limitPlan.Some? {
        assert SoundDraft(Poi.Adopt(a.limitPlan.value, a.intent, ExecutionTimeframe(a.intent), nowMs), nowMs);
      }
    }
  }

  /** So every limit record any pass opens keeps its books over any run of settlement batches: -1R at the
      stop, the frozen reward/risk at the objective, no R before a position closed, and on well-formed bars
      an R between the two. */
  lemma {:induction false} LimitRecordsAccounted(input: PassInput, holds: Holds, display: seq<Display>,
                                                 s: Anticipatory.Signal, bars: seq<Candle>,
                                                 windows: seq<Anticipatory.Window>)
    requires AllShown(EntriesOf(input, INTENTS), holds, input.nowMs, display) && s in LimitDrafts(display, input.nowMs)
    requires forall k :: 0 <= k < |windows| ==> windows[k].from <= windows[k].to <= |bars|
    ensures Poi.Accounted(Anticipatory.RunWindows(s, bars, windows))
    ensures Poi.WellFormed(bars) ==> Poi.RInRange(Anticipatory.RunWindows(s, bars, windows))
  {
    hide EntryFor, Anticipatory.Pass, Poi.SoundGeometry, Poi.Adopt, Poi.Accounted, Poi.WellFormed, Poi.RInRange;
    var entries := EntriesOf(input, INTENTS);
    EntryIntents(input, INTENTS);
    forall d | d in display && d.assessment.limitPlan.Some? ensures Poi.SoundGeometry(d.assessment.limitPlan.value) {
      var i :| 0 <= i < |display| && display[i] == d;
      assert entries[i] in entries;
      EntryLimitSound(input, entries[i].assessment.intent);
    }
    DraftsSound(display, input.nowMs);
    var plan, intent :|
      Poi.SoundGeometry(plan) && s == Poi.Adopt(plan, intent, ExecutionTimeframe(intent), input.nowMs);
    Poi.RunAccounted(plan, intent, ExecutionTimeframe(intent), input.nowMs, bars, windows);
    if Poi.WellFormed(bars) { Poi.RunRInRange(plan, intent, ExecutionTimeframe(intent), input.nowMs, bars, windows); }
  }

  // ---------------------------------------------------------------- a run of passes

  /** The holds store after a run: each pass writes its updates over what was stored. */
  function StoreAfter(holds: Holds, entries: seq<ReconcileEntry>, nowMs: int): Holds {
    if |entries| == 0 then holds
    else
      var e := entries[|entries| - 1];
      StoreAfter(holds, entries[..|entries| - 1],
                 nowMs)[e.assessment.intent := NextHold(HeldFor(holds, e.assessment.intent), e, nowMs)]
  }

  function RunHolds(inputs: seq<PassInput>): Holds {
    if |inputs| == 0 then map[]
    else
      var input := inputs[|inputs| - 1];
      StoreAfter(RunHolds(inputs[..|inputs| - 1]), EntriesOf(input, INTENTS), input.nowMs)
  }

  /** What one intent sees over the run: the passes in which it was assessed. */
  function TicksOf(inputs: seq<PassInput>, intent: TradingIntent): seq<Tick> {
    if |inputs| == 0 then []
    else
      var input := inputs[|inputs| - 1];
      var e := EntryFor(input, intent);
      TicksOf(inputs[..|inputs| - 1], intent) + if e.Some? then [Tick(e.value, input.nowMs)] else []
  }

  lemma {:induction false} StoreAfterAt(holds: Holds, entries: seq<ReconcileEntry>, nowMs: int, intent: TradingIntent)
    requires DistinctIntents(entries)
    ensures (forall e :: e in entries ==> e.assessment.intent != intent) ==>
            HeldFor(StoreAfter(holds, entries, nowMs), intent) == HeldFor(holds, intent)
    ensures forall e :: e in entries && e.assessment.intent == intent ==>
              HeldFor(StoreAfter(holds, entries, nowMs), intent) == Some(NextHold(HeldFor(holds, intent), e, nowMs))
  {
    if |entries| > 0 {
      var init, last := entries[..|entries| - 1], entries[|entries| - 1];
      assert entries == init + [last];
      StoreAfterAt(holds, init, nowMs, intent);
      var before := StoreAfter(holds, init, nowMs);
      var written := before[last.assessment.intent := NextHold(HeldFor(holds, last.assessment.intent), last, nowMs)];
      assert StoreAfter(holds, entries, nowMs) == written;
      assert last.assessment.intent != intent ==> HeldFor(written, intent) == HeldFor(before, intent);
      if last.assessment.intent == intent {
        forall e | e in init ensures e.assessment.intent != intent {
          var i :| 0 <= i < |init| && init[i] == e;
          assert entries[i].assessment.intent != entries[|entries| - 1].assessment.intent;
        }
      }
    }
  }

  /** The updates a pass returns are what the store model writes. */
  lemma {:induction false} UpdatesAreStored(entries: seq<ReconcileEntry>, holds: Holds, nowMs: int, updates: Holds)
    requires DistinctIntents(entries) && AllUpdated(entries, holds, nowMs, updates)
    ensures holds + updates == StoreAfter(holds, entries, nowMs)
  {
    forall k ensures HeldFor(holds + updates, k) == HeldFor(StoreAfter(holds, entries, nowMs), k) {
      StoreAfterAt(holds, entries, nowMs, k);
      if i :| 0 <= i < |entries| && entries[i].assessment.intent == k {
        StoredHolds(entries, holds, nowMs, updates, i);
        assert entries[i] in entries;
      } else {
        forall e | e in entries ensures e.assessment.intent != k {
          var i :| 0 <= i < |entries| && entries[i] == e;
        }
      }
    }
    SameHolds(holds + updates, StoreAfter(holds, entries, nowMs));
  }

  lemma {:induction false} SameHolds(a: Holds, b: Holds)
    requires forall k :: HeldFor(a, k) == HeldFor(b, k)
    ensures a == b
  {
    assert forall k :: k in a <==> k in b by {
      forall k ensures k in a <==> k in b { assert HeldFor(a, k) == HeldFor(b, k); }
    }
    forall k | k in a ensures a[k] == b[k] { assert HeldFor(a, k) == HeldFor(b, k); }
  }

  /** The store keeps the intents apart: each intent's hold is the fold over its own passes. */
  lemma {:induction false} RunPerIntent(inputs: seq<PassInput>, intent: TradingIntent)
    ensures HeldFor(RunHolds(inputs), intent) == HoldAfter(None, TicksOf(inputs, intent))
  {
    hide EntryFor, Stands, CaptureHold;
    if |inputs| > 0 {
      var init, input := inputs[..|inputs| - 1], inputs[|inputs| - 1];
      RunPerIntent(init, intent);
      var entries := EntriesOf(input, INTENTS);
      EntriesDistinct(input);
      EntryIntents(input, INTENTS);
      StoreAfterAt(RunHolds(init), entries, input.nowMs, intent);
      EntryListed(input, INTENTS, intent);
      var e := EntryFor(input, intent);
      if e.Some? {
        var ticks := TicksOf(init, intent);
        assert (ticks + [Tick(e.value, input.nowMs)])[..|ticks|] == ticks;
      } else {
        assert TicksOf(init, intent) + [] == TicksOf(init, intent);
      }
    }
  }

  lemma {:induction false} EntryIntent(input: PassInput, intent: TradingIntent)
    requires EntryFor(input, intent).Some?
    ensures EntryFor(input, intent).value.assessment.intent == intent
  {}

  lemma {:induction false} EntryListed(input: PassInput, intents: seq<TradingIntent>, intent: TradingIntent)
    requires intent in intents
    ensures EntryFor(input, intent).Some? ==> EntryFor(input, intent).value in EntriesOf(input, intents)
                                              && EntryFor(input, intent).value.assessment.intent == intent
  {
    var init, last := intents[..|intents| - 1], intents[|intents| - 1];
    assert intents == init + [last];
    if EntryFor(input, intent).Some? { EntryIntent(input, intent); }
    if last != intent { EntryListed(input, init, intent); }
  }

  lemma {:induction false} TicksFacts(inputs: seq<PassInput>, intent: TradingIntent)
    requires forall i, j :: 0 <= i < j < |inputs| ==> inputs[i].nowMs <= inputs[j].nowMs
    ensures Forward(TicksOf(inputs, intent))
    ensures forall t :: t in TicksOf(inputs, intent) ==> |inputs| > 0 && t.nowMs <= inputs[|inputs| - 1].nowMs
    ensures forall t :: t in TicksOf(inputs, intent) ==>
              var a := t.entry.assessment;
              a.intent == intent && SizedFrom(a.verdict, a.direction, a.sizeMultiplier, a.plan, a.execution.risk)
  {
    hide EntryFor, SizedFrom;
    if |inputs| > 0 {
      var init, input := inputs[..|inputs| - 1], inputs[|inputs| - 1];
      TicksFacts(init, intent);
      if EntryFor(input, intent).Some? { EntrySized(input, intent); }
      var before, after := TicksOf(init, intent), TicksOf(inputs, intent);
      forall i | 0 <= i < |before| ensures after[i] == before[i] && before[i].nowMs <= input.nowMs {
        assert before[i] in before;
      }
    }
  }

  /** Over every run from an empty store: what an intent displays carries a plan exactly when it reads
      favored or caution, the full plan on favored and its half plan on caution, and both come from the
      execution plan of the one pass it was adopted at, no older than the holding horizon. */
  lemma {:induction false} DisplaySizedOverRuns(inputs: seq<PassInput>, intent: TradingIntent, n: nat)
    requires forall i, j :: 0 <= i < j < |inputs| ==> inputs[i].nowMs <= inputs[j].nowMs
    requires 0 < n <= |TicksOf(inputs, intent)|
    ensures var ticks := TicksOf(inputs, intent);
            var d := ShownAt(None, ticks, n - 1);
            exists i :: 0 <= i < n && AdoptedAt(d, ticks[i]) && ticks[n - 1].nowMs - ticks[i].nowMs <= MaxAgeMs(intent)
              && SizedFrom(d.assessment.verdict, d.assessment.direction, d.assessment.sizeMultiplier, d.assessment.plan,
                           ticks[i].entry.assessment.execution.risk)
  {
    var ticks := TicksOf(inputs, intent);
    TicksFacts(inputs, intent);
    forall k | 0 <= k < |ticks| ensures ticks[k].entry.assessment.intent == intent { assert ticks[k] in ticks; }
    DisplayProvenance(ticks, n, intent);
    var i :| 0 <= i < n && AdoptedAt(ShownAt(None, ticks, n - 1), ticks[i])
      && ticks[n - 1].nowMs - ticks[i].nowMs <= MaxAgeMs(intent);
    assert ticks[i] in ticks;
  }

  /** What a pass over the stored holds displays for an intent is what the run's fold shows. */
  lemma {:induction false} DisplayIsShownAt(inputs: seq<PassInput>, display: seq<Display>, i: nat)
    requires |inputs| > 0
    requires var input, entries := inputs[|inputs| - 1], EntriesOf(inputs[|inputs| - 1], INTENTS);
             i < |entries| && AllShown(entries, RunHolds(inputs[..|inputs| - 1]), input.nowMs, display)
    ensures var intent := EntriesOf(inputs[|inputs| - 1], INTENTS)[i].assessment.intent;
            var ticks := TicksOf(inputs, intent);
            |ticks| > 0 && display[i] == ShownAt(None, ticks, |ticks| - 1)
  {
    hide EntryFor, Shown, NextHold;
    var init, input := inputs[..|inputs| - 1], inputs[|inputs| - 1];
    var entries := EntriesOf(input, INTENTS);
    EntryIntents(input, INTENTS);
    assert entries[i] in entries;
    var intent := entries[i].assessment.intent;
    RunPerIntent(init, intent);
    var ticks := TicksOf(inputs, intent);
    assert ticks == TicksOf(init, intent) + [Tick(entries[i], input.nowMs)];
    assert ticks[..|ticks| - 1] == TicksOf(init, intent);
  }

  /** So over every run from an empty store, what a pass displays is full size on favored, the half plan on caution and
      without a plan otherwise, off the execution plan of the pass it was adopted at. */
  lemma {:induction false} DisplayedIsSized(inputs: seq<PassInput>, display: seq<Display>, i: nat)
    requires forall j, k :: 0 <= j < k < |inputs| ==> inputs[j].nowMs <= inputs[k].nowMs
    requires |inputs| > 0
    requires var input, entries := inputs[|inputs| - 1], EntriesOf(inputs[|inputs| - 1], INTENTS);
             i < |entries| && AllShown(entries, RunHolds(inputs[..|inputs| - 1]), input.nowMs, display)
    ensures var a := display[i].assessment;
            exists t :: t in TicksOf(inputs, EntriesOf(inputs[|inputs| - 1], INTENTS)[i].assessment.intent)
              && AdoptedAt(display[i], t)
              && SizedFrom(a.verdict, a.direction, a.sizeMultiplier, a.plan, t.entry.assessment.execution.risk)
  {
    hide EntryFor, Shown, HoldAfter, SizedFrom;
    var intent := EntriesOf(inputs[|inputs| - 1], INTENTS)[i].assessment.intent;
    DisplayIsShownAt(inputs, display, i);
    var ticks := TicksOf(inputs, intent);
    DisplaySizedOverRuns(inputs, intent, |ticks|);
    var a := display[i].assessment;
    var k :| 0 <= k < |ticks| && AdoptedAt(display[i], ticks[k])
             && SizedFrom(a.verdict, a.direction, a.sizeMultiplier, a.plan, ticks[k].entry.assessment.execution.risk);
    assert ticks[k] in ticks;
  }

  // ---------------------------------------------------------------- repeating a pass

  function Quoted(level: Option<real>): Option<real> {
    if level.Some? then Some(Quotes.RoundPrice(level.value)) else None
  }

  /** The execution read carries the levels and the close of these candles, as quoted. */
  ghost predicate ReadsLevels(e: Evaluation, candles: seq<Candle>, pivots: seq<Pivot>) {
    && |candles| > 0 && e.lastClose == Quotes.RoundPrice(candles[|candles| - 1].close)
    && e.support == Quoted(RiskPlanning.NearestLevel(candles, pivots, Low))
    && e.resistance == Quoted(RiskPlanning.NearestLevel(candles, pivots, High))
  }

  /** Within the holding horizon a repeat adopts a sided verdict anew exactly when no pivot faces the close on the
      losing side, the close has left the range of the bars before it, and the quotes tell the two apart. */
  lemma {:induction false} RepeatReadoptsIff(held: Option<HeldVerdict>, e: ReconcileEntry, candles: seq<Candle>,
                                             pivots: seq<Pivot>, side: Side, nowMs: int, later: int)
    requires ReadsLevels(e.assessment.execution, candles, pivots) && e.assessment.direction == Some(side)
    requires !Stands(held, e, nowMs) && nowMs <= later <= nowMs + MaxAgeMs(e.assessment.intent)
    ensures var kind, close := if side == Long then Low else High, candles[|candles| - 1].close;
            !Stands(Some(NextHold(held, e, nowMs)), e, later)
            <==> && (forall p :: p in pivots ==> !RiskPlanning.Facing(p, kind, close))
                 && |candles| > 1
                 && var extreme := RiskPlanning.Extreme(RiskPlanning.Before(candles), kind);
                    && RiskPlanning.WrongSide(kind, extreme, close)
                    && Quotes.RoundPrice(extreme) != Quotes.RoundPrice(close)
  {
    hide RiskPlanning.NearestLevel, RiskPlanning.Extreme, Quotes.RoundPrice;
    var kind, close := if side == Long then Low else High, candles[|candles| - 1].close;
    RepeatIsNoOpIff(held, e, nowMs, later);
    CapturedLevels(e.assessment, nowMs, e.assessment.execution.lastClose);
    RiskPlanning.LevelOnWrongSideIff(candles, pivots, kind);
    var level := RiskPlanning.NearestLevel(candles, pivots, kind).value;
    Quotes.QuotedOrderIff(close, level);
    Quotes.QuotedOrderIff(level, close);
  }

  // ---------------------------------------------------------------- where demotion does not reach

  /** A demoted call is still displayed favored exactly when a favored hold stands over it. */
  lemma {:induction false} DemotionMaskedIff(held: Option<HeldVerdict>, a: Assessment, stats: seq<ComboStat>,
                                             nowMs: int)
    requires a.verdict == Favored && ProvenNegative(a, stats)
    ensures var e := ApplyRecordAdjustment(a, stats);
            && e.record == Some(RecordNote(true))
            && (Shown(held, e, nowMs).assessment.verdict == Favored
                <==> Stands(held, e, nowMs) && held.value.verdict == Favored)
  {}

  /** So the record does not stop full size at once: a favored call adopted before its record turned
      negative is shown favored, at full size and with the demotion note, for as long as the hold lasts. */
  lemma {:induction false} HeldFavoredOutlastsDemotion(a: Assessment, stats: seq<ComboStat>, adoptedMs: int, nowMs: int)
    requires a.verdict == Favored && a.sizeMultiplier == 1.0 && ProvenNegative(a, stats)
    requires adoptedMs <= nowMs <= adoptedMs + MaxAgeMs(a.intent)
    requires !Breaks(CaptureHold(a, adoptedMs).invalidation, a.execution.lastClose)
    ensures var ticks := [Tick(ApplyRecordAdjustment(a, []), adoptedMs), Tick(ApplyRecordAdjustment(a, stats), nowMs)];
            var d := ShownAt(None, ticks, 1);
            d.assessment.verdict == Favored && d.assessment.sizeMultiplier == 1.0 && d.record == Some(RecordNote(true))
  {
    var ticks := [Tick(ApplyRecordAdjustment(a, []), adoptedMs), Tick(ApplyRecordAdjustment(a, stats), nowMs)];
    assert ticks[..1] == [ticks[0]] && ticks[..1][..0] == [];
    assert HoldAfter(None, ticks[..1]) == Some(CaptureHold(a, adoptedMs));
  }
}
