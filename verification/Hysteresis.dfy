/** Verdict holds (engine/smc/hysteresis.py): a displayed verdict stands until one of its own release
    conditions fires. One symbol and market are fixed, so a hold is keyed by its intent; times are
    milliseconds and a stored time that does not parse is None. */
module Hysteresis {
  import opened Types
  import opened Horizons
  import opened Quant
  import opened Intent
  import opened Shadow

  datatype TriggerLevel = TriggerLevel(level: real, below: bool)

  datatype HeldVerdict = HeldVerdict(
    intent: TradingIntent, verdict: Verdict, direction: TradeDirection, isCounterTrend: bool, sizeMultiplier: real,
    confidence: int, plan: Option<RiskPlan>, setup: SetupType, contextBias: TradeDirection, heldAt: Option<int>,
    invalidation: Option<TriggerLevel>, upgradeTrigger: Option<TriggerLevel>)

  datatype HoldInfo = HoldInfo(heldAt: Option<int>, isHeld: bool)

  datatype Display = Display(assessment: Assessment, hold: HoldInfo, record: Option<RecordNote>)

  function VerdictRank(v: Verdict): int {
    match v case Avoid => 0 case Wait => 1 case Caution => 2 case Favored => 3
  }

  /** The level whose break releases the hold, and the one whose break would confirm it. */
  function CaptureHold(a: Assessment, nowMs: int): HeldVerdict {
    var e := a.execution;
    var long, short := a.direction == Some(Long), a.direction == Some(Short);
    var invalidation :=
      if long then Some(TriggerLevel(if e.support.Some? then e.support.value else e.risk.invalidation, true))
      else if short
        then Some(TriggerLevel(if e.resistance.Some? then e.resistance.value else e.risk.invalidation, false))
      else None;
    var upgrade :=
      if long && e.resistance.Some? then Some(TriggerLevel(e.resistance.value, false))
      else if short && e.support.Some? then Some(TriggerLevel(e.support.value, true))
      else None;
    HeldVerdict(a.intent, a.verdict, a.direction, a.isCounterTrend, a.sizeMultiplier, a.confidence, a.plan,
                e.setup, a.contextBias, Some(nowMs), invalidation, upgrade)
  }

  // ---------------------------------------------------------------- release

  datatype Release = AgedOut | LevelBroken | ContextFlipped | Upgraded

  function MaxAgeMs(intent: TradingIntent): int { MaxHoldBars(intent) * StepSeconds(ExecutionTimeframe(intent)) * 1000 }

  predicate HasAged(held: HeldVerdict, nowMs: int) {
    held.heldAt == None || nowMs - held.heldAt.value > MaxAgeMs(held.intent)
  }

  predicate Breaks(trigger: Option<TriggerLevel>, lastClose: real) {
    trigger.Some? && if trigger.value.below then lastClose < trigger.value.level else lastClose > trigger.value.level
  }

  predicate HasFlipped(held: HeldVerdict, fresh_: Assessment) {
    fresh_.contextBias != None && fresh_.contextBias != held.contextBias
  }

  predicate IsUpgrade(held: HeldVerdict, fresh_: Assessment) {
    VerdictRank(fresh_.verdict) > VerdictRank(held.verdict)
      && (held.direction == None || fresh_.direction == held.direction)
  }

  function ReleaseReason(held: HeldVerdict, fresh_: Assessment, nowMs: int): Option<Release> {
    if HasAged(held, nowMs) then Some(AgedOut)
    else if Breaks(held.invalidation, fresh_.execution.lastClose) then Some(LevelBroken)
    else if HasFlipped(held, fresh_) then Some(ContextFlipped)
    else if IsUpgrade(held, fresh_) then Some(Upgraded)
    else None
  }

  /** A named side is released by closing through the level behind it and confirmed by closing through the
      level ahead; a neutral verdict is released by no level. */
  lemma {:induction false} CapturedLevels(a: Assessment, nowMs: int, close: real)
    ensures var held, e := CaptureHold(a, nowMs), a.execution;
            && (a.direction == None ==> !Breaks(held.invalidation, close) && !Breaks(held.upgradeTrigger, close))
            && (a.direction == Some(Long) ==>
                  && (Breaks(held.invalidation, close)
                      <==> close < if e.support.Some? then e.support.value else e.risk.invalidation)
                  && (Breaks(held.upgradeTrigger, close) <==> e.resistance.Some? && close > e.resistance.value))
            && (a.direction == Some(Short) ==>
                  && (Breaks(held.invalidation, close)
                      <==> close > if e.resistance.Some? then e.resistance.value else e.risk.invalidation)
                  && (Breaks(held.upgradeTrigger, close) <==> e.support.Some? && close < e.support.value))
  {}

  // ---------------------------------------------------------------- one pass

  /** Fresh context with the held verdict's own fields. */
  function DisplayFromHold(held: HeldVerdict, fresh_: Assessment, record: Option<RecordNote>): Display {
    Display(fresh_.(verdict := held.verdict, direction := held.direction, isCounterTrend := held.isCounterTrend,
                    sizeMultiplier := held.sizeMultiplier, confidence := held.confidence, plan := held.plan),
            HoldInfo(held.heldAt, true), record)
  }

  predicate Stands(held: Option<HeldVerdict>, e: ReconcileEntry, nowMs: int) {
    held.Some? && ReleaseReason(held.value, e.assessment, nowMs) == None
  }

  /** One entry: a standing hold is displayed as it is; otherwise the fresh verdict is adopted. */
  function Shown(held: Option<HeldVerdict>, e: ReconcileEntry, nowMs: int): Display {
    if Stands(held, e, nowMs) then DisplayFromHold(held.value, e.assessment, e.record)
    else Display(e.assessment, HoldInfo(Some(nowMs), false), e.record)
  }

  function NextHold(held: Option<HeldVerdict>, e: ReconcileEntry, nowMs: int): HeldVerdict {
    if Stands(held, e, nowMs) then held.value else CaptureHold(e.assessment, nowMs)
  }

  /** Favored over caution over wait over avoid. */
  predicate Better(a: Verdict, b: Verdict) {
    match a
    case Favored => b != Favored
    case Caution => b == Wait || b == Avoid
    case Wait => b == Avoid
    case Avoid => false
  }

  /** How long a verdict may be held: four hours, a day, a week, thirty days. */
  function HoldHours(intent: TradingIntent): int {
    match intent case Scalp => 4 case Intraday => 24 case SwingTrade => 168 case Position => 720
  }

  ghost predicate Unbroken(held: HeldVerdict, close: real) {
    match held.invalidation
    case None => true
    case Some(trigger) => if trigger.below then trigger.level <= close else close <= trigger.level
  }

  /** A hold stands exactly while it is young, its level unbroken, the context not turned to another side, and the
      fresh read no better verdict on its side. */
  lemma {:induction false} StandsOnFields(held: HeldVerdict, e: ReconcileEntry, nowMs: int)
    ensures var f := e.assessment;
            Stands(Some(held), e, nowMs)
            <==> && held.heldAt.Some? && nowMs <= held.heldAt.value + HoldHours(held.intent) * 3600000
                 && Unbroken(held, f.execution.lastClose)
                 && (f.contextBias == None || f.contextBias == held.contextBias)
                 && !(Better(f.verdict, held.verdict) && (held.direction == None || f.direction == held.direction))
  {}

  /** So what is displayed is never outranked by a fresh read of its own side, and a held display never stands
      against the context. */
  lemma {:induction false} DisplayIsCurrent(held: Option<HeldVerdict>, e: ReconcileEntry, nowMs: int)
    ensures var d := Shown(held, e, nowMs);
            && (d.assessment.direction == None || d.assessment.direction == e.assessment.direction ==>
                  !Better(e.assessment.verdict, d.assessment.verdict))
            && (d.hold.isHeld ==> held.Some? && e.assessment.contextBias in {None, held.value.contextBias}
                                  && Unbroken(held.value, e.assessment.execution.lastClose))
  {
    hide HoldHours, ReleaseReason;
    if held.Some? { StandsOnFields(held.value, e, nowMs); }
  }

  /** An adopted call, once held, is displayed with its own verdict and trade on the fresh context and execution. */
  lemma {:induction false} HeldCallShows(a: Assessment, adoptedMs: int, e: ReconcileEntry, nowMs: int)
    requires Stands(Some(CaptureHold(a, adoptedMs)), e, nowMs)
    ensures var d, f := Shown(Some(CaptureHold(a, adoptedMs)), e, nowMs), e.assessment;
            && d.assessment == a.(intent := f.intent, contextBias := f.contextBias, executionBias := f.executionBias,
                                  execution := f.execution, limitPlan := f.limitPlan)
            && d.hold == HoldInfo(Some(adoptedMs), true) && d.record == e.record
  {
    hide Stands;
  }

  type Holds = map<TradingIntent, HeldVerdict>

  function HeldFor(holds: Holds, intent: TradingIntent): Option<HeldVerdict> {
    if intent in holds then Some(holds[intent]) else None
  }

  ghost predicate DistinctIntents(entries: seq<ReconcileEntry>) {
    forall i, j :: 0 <= i < j < |entries| ==> entries[i].assessment.intent != entries[j].assessment.intent
  }

  function Opened(entries: seq<ReconcileEntry>, holds: Holds, nowMs: int): seq<Assessment> {
    if |entries| == 0 then []
    else
      var e := entries[|entries| - 1];
      Opened(entries[..|entries| - 1], holds, nowMs)
      + if e.favoredBefore && !Stands(HeldFor(holds, e.assessment.intent), e, nowMs) then [e.assessment] else []
  }

  /** Favored before demotion, with no hold that still stands. */
  ghost predicate Opens(e: ReconcileEntry, holds: Holds, nowMs: int) {
    var k := e.assessment.intent;
    e.favoredBefore && !(k in holds && Stands(Some(holds[k]), e, nowMs))
  }

  /** Exactly these entries open a record. */
  lemma {:induction false} OpenedIff(entries: seq<ReconcileEntry>, holds: Holds, nowMs: int, a: Assessment)
    ensures a in Opened(entries, holds, nowMs)
            <==> exists e :: e in entries && e.assessment == a && Opens(e, holds, nowMs)
  {
    if |entries| > 0 {
      var init, last := entries[..|entries| - 1], entries[|entries| - 1];
      OpenedIff(init, holds, nowMs, a);
      assert entries == init + [last];
      var mine := if Opens(last, holds, nowMs) then [last.assessment] else [];
      assert Opened(entries, holds, nowMs) == Opened(init, holds, nowMs) + mine;
      hide Opens, Stands;
    }
  }

  /** Every entry is shown against the holds the pass started from. */
  ghost predicate AllShown(entries: seq<ReconcileEntry>, holds: Holds, nowMs: int, display: seq<Display>) {
    && |display| == |entries|
    && (forall i :: 0 <= i < |entries| ==>
        display[i] == Shown(HeldFor(holds, entries[i].assessment.intent), entries[i], nowMs))
  }

  ghost predicate UpdateFor(holds: Holds, nowMs: int, updates: Holds, e: ReconcileEntry) {
    var k := e.assessment.intent;
    if Stands(HeldFor(holds, k), e, nowMs) then k !in updates
    else k in updates && updates[k] == CaptureHold(e.assessment, nowMs)
  }

  /** The updates are exactly the newly adopted holds. */
  ghost predicate AllUpdated(entries: seq<ReconcileEntry>, holds: Holds, nowMs: int, updates: Holds) {
    && (forall i :: 0 <= i < |entries| ==> UpdateFor(holds, nowMs, updates, entries[i]))
    && (forall k :: k in updates ==> exists i :: 0 <= i < |entries| && entries[i].assessment.intent == k)
  }

  lemma {:induction false} UpdatedStep(before: seq<ReconcileEntry>, entry: ReconcileEntry, holds: Holds, nowMs: int,
                                       updates: Holds)
    requires DistinctIntents(before + [entry]) && AllUpdated(before, holds, nowMs, updates)
    ensures var k := entry.assessment.intent;
            AllUpdated(before + [entry], holds, nowMs,
                       if Stands(HeldFor(holds, k), entry, nowMs) then updates
                         else updates[k := CaptureHold(entry.assessment, nowMs)])
  {
    var key, after := entry.assessment.intent, before + [entry];
    var updates' := if Stands(HeldFor(holds, key), entry, nowMs) then updates
      else updates[key := CaptureHold(entry.assessment, nowMs)];
    forall i | 0 <= i < |before| ensures after[i] == before[i] && before[i].assessment.intent != key {
      assert after[i].assessment.intent != after[|before|].assessment.intent;
    }
    assert key !in updates;
    forall i | 0 <= i < |after| ensures UpdateFor(holds, nowMs, updates', after[i]) {
      if i < |before| { assert UpdateFor(holds, nowMs, updates, before[i]); }
    }
    forall k | k in updates' ensures exists i :: 0 <= i < |after| && after[i].assessment.intent == k {
      if k in updates {
        var i :| 0 <= i < |before| && before[i].assessment.intent == k;
        assert after[i].assessment.intent == k;
      } else {
        assert after[|before|].assessment.intent == k;
      }
    }
  }

  /** The pass after its first `n` entries. */
  ghost predicate PassState(entries: seq<ReconcileEntry>, n: nat, holds: Holds, nowMs: int,
                            display: seq<Display>, updates: Holds, drafts: seq<Assessment>) {
    && n <= |entries|
    && AllShown(entries[..n], holds, nowMs, display) && AllUpdated(entries[..n], holds, nowMs, updates)
    && drafts == Opened(entries[..n], holds, nowMs)
  }

  lemma {:induction false} PassStep(entries: seq<ReconcileEntry>, n: nat, holds: Holds, nowMs: int,
                                    display: seq<Display>, updates: Holds, drafts: seq<Assessment>)
    requires DistinctIntents(entries) && n < |entries| && PassState(entries, n, holds, nowMs, display, updates, drafts)
    ensures var e := entries[n];
            var k := e.assessment.intent;
            var stands := Stands(HeldFor(holds, k), e, nowMs);
            PassState(entries, n + 1, holds, nowMs, display + [Shown(HeldFor(holds, k), e, nowMs)],
                      if stands then updates else updates[k := CaptureHold(e.assessment, nowMs)],
                      if e.favoredBefore && !stands then drafts + [e.assessment] else drafts)
  {
    var before, e := entries[..n], entries[n];
    assert before + [e] == entries[..n + 1] && entries[..n + 1][..n] == before;
    assert DistinctIntents(before + [e]) by { assert forall i :: 0 <= i <= n ==> (before + [e])[i] == entries[i]; }
    hide CaptureHold, Stands, Shown, DistinctIntents, AllUpdated;
    UpdatedStep(before, e, holds, nowMs, updates);
    assert AllShown(before + [e], holds, nowMs, display + [Shown(HeldFor(holds, e.assessment.intent), e, nowMs)]);
    assert drafts + [] == drafts;
  }

  method ReconcileHolds(entries: seq<ReconcileEntry>, holds: Holds, nowMs: int)
    returns (display: seq<Display>, updates: Holds, drafts: seq<Assessment>)
    requires DistinctIntents(entries)
    ensures AllShown(entries, holds, nowMs, display) && AllUpdated(entries, holds, nowMs, updates)
    ensures drafts == Opened(entries, holds, nowMs)
  {
    display, updates, drafts := [], map[], [];
    for i := 0 to |entries|
      invariant PassState(entries, i, holds, nowMs, display, updates, drafts)
    {
      var entry := entries[i];
      PassStep(entries, i, holds, nowMs, display, updates, drafts);
      var key := entry.assessment.intent;
      var release := if key in holds then ReleaseReason(holds[key], entry.assessment, nowMs) else Some(AgedOut);
      if key in holds && release == None {
        display := display + [DisplayFromHold(holds[key], entry.assessment, entry.record)];
        continue;
      }
      var adopted := CaptureHold(entry.assessment, nowMs);
      updates := updates[key := adopted];
      if entry.favoredBefore {
        drafts := drafts + [entry.assessment];
      }
      display := display + [Display(entry.assessment, HoldInfo(adopted.heldAt, false), entry.record)];
    }
    assert entries[..|entries|] == entries;
  }

  /** The stored holds after the pass are the old ones with the updates written over them. */
  lemma {:induction false} StoredHolds(entries: seq<ReconcileEntry>, holds: Holds, nowMs: int, updates: Holds, i: nat)
    requires AllUpdated(entries, holds, nowMs, updates) && i < |entries|
    ensures var k := entries[i].assessment.intent;
            HeldFor(holds + updates, k) == Some(NextHold(HeldFor(holds, k), entries[i], nowMs))
  {
    assert UpdateFor(holds, nowMs, updates, entries[i]);
  }

  // ---------------------------------------------------------------- one hold over a run

  /** What one intent sees at one pass. */
  datatype Tick = Tick(entry: ReconcileEntry, nowMs: int)

  function HoldAfter(start: Option<HeldVerdict>, ticks: seq<Tick>): Option<HeldVerdict> {
    if |ticks| == 0 then start
    else
      var t := ticks[|ticks| - 1];
      Some(NextHold(HoldAfter(start, ticks[..|ticks| - 1]), t.entry, t.nowMs))
  }

  function ShownAt(start: Option<HeldVerdict>, ticks: seq<Tick>, i: nat): Display
    requires i < |ticks|
  {
    Shown(HoldAfter(start, ticks[..i]), ticks[i].entry, ticks[i].nowMs)
  }

  /** The hold changes hands at a pass exactly when one of the four releases fires; the displayed
      verdict is always the hold's. */
  lemma {:induction false} ReplacedOnlyOnRelease(held: HeldVerdict, e: ReconcileEntry, nowMs: int)
    ensures Shown(Some(held), e, nowMs).hold.isHeld
            <==> !HasAged(held, nowMs) && !Breaks(held.invalidation, e.assessment.execution.lastClose)
                 && !HasFlipped(held, e.assessment) && !IsUpgrade(held, e.assessment)
    ensures var next, shown := NextHold(Some(held), e, nowMs), Shown(Some(held), e, nowMs).assessment;
            && shown.verdict == next.verdict && shown.direction == next.direction && shown.plan == next.plan
            && shown.sizeMultiplier == next.sizeMultiplier
            && (Shown(Some(held), e, nowMs).hold.isHeld ==> next == held)
  {}

  /** No age-out, broken level or context flip at passes `i + 1..n`. */
  ghost predicate Quiet(start: Option<HeldVerdict>, ticks: seq<Tick>, i: nat, n: nat) {
    i < n <= |ticks| &&
    forall k :: i < k < n ==>
      var held := HoldAfter(start, ticks[..k]);
      held.Some? && !HasAged(held.value, ticks[k].nowMs)
      && !Breaks(held.value.invalidation, ticks[k].entry.assessment.execution.lastClose)
      && !HasFlipped(held.value, ticks[k].entry.assessment)
  }

  /** While no age-out, broken level or context flip fires, the displayed rank never falls and a named
      direction never changes, however many passes go by. */
  lemma {:induction false} RankNeverFalls(start: Option<HeldVerdict>, ticks: seq<Tick>, i: nat, n: nat)
    requires Quiet(start, ticks, i, n)
    ensures var first, last := ShownAt(start, ticks, i).assessment, ShownAt(start, ticks, n - 1).assessment;
            && VerdictRank(first.verdict) <= VerdictRank(last.verdict)
            && (first.direction != None ==> last.direction == first.direction)
            && HoldAfter(start, ticks[..n]).Some?
            && HoldAfter(start, ticks[..n]).value.verdict == last.verdict
            && HoldAfter(start, ticks[..n]).value.direction == last.direction
  {
    hide CaptureHold, HasAged, Breaks, HasFlipped, Shown, NextHold, VerdictRank;
    assert ticks[..n][..n - 1] == ticks[..n - 1];
    var last := ticks[n - 1];
    DisplayIsTheHold(HoldAfter(start, ticks[..n - 1]), last.entry, last.nowMs);
    if n > i + 1 {
      RankNeverFalls(start, ticks, i, n - 1);
      var k := n - 1;
      assert i < k < n;
      QuietStep(HoldAfter(start, ticks[..k]).value, last.entry, last.nowMs);
    }
  }

  lemma {:induction false} DisplayIsTheHold(held: Option<HeldVerdict>, e: ReconcileEntry, nowMs: int)
    ensures var shown, next := Shown(held, e, nowMs).assessment, NextHold(held, e, nowMs);
            shown.verdict == next.verdict && shown.direction == next.direction
  {}

  /** One quiet pass: the hold stands or is upgraded on its side. */
  lemma {:induction false} QuietStep(held: HeldVerdict, e: ReconcileEntry, nowMs: int)
    requires !HasAged(held, nowMs) && !Breaks(held.invalidation, e.assessment.execution.lastClose)
             && !HasFlipped(held, e.assessment)
    ensures var shown := Shown(Some(held), e, nowMs).assessment;
            VerdictRank(held.verdict) <= VerdictRank(shown.verdict)
              && (held.direction != None ==> shown.direction == held.direction)
  {}

  /** Passes run forward in time. */
  ghost predicate Forward(ticks: seq<Tick>) {
    forall i, j :: 0 <= i < j < |ticks| ==> ticks[i].nowMs <= ticks[j].nowMs
  }

  /** What is displayed is never older than the intent's holding horizon, and was always adopted: its
      verdict, size and plan are those of the fresh assessment of one pass of the run, stamped with it. */
  lemma {:induction false} DisplayProvenance(ticks: seq<Tick>, n: nat, intent: TradingIntent)
    requires 0 < n <= |ticks| && Forward(ticks)
    requires forall k :: 0 <= k < |ticks| ==> ticks[k].entry.assessment.intent == intent
    ensures exists i ::
            && 0 <= i < n
            && HoldAfter(None, ticks[..n]) == Some(CaptureHold(ticks[i].entry.assessment, ticks[i].nowMs))
    ensures var d := ShownAt(None, ticks, n - 1);
            exists i :: 0 <= i < n && AdoptedAt(d, ticks[i]) && ticks[n - 1].nowMs - ticks[i].nowMs <= MaxAgeMs(intent)
  {
    assert ticks[..n][..n - 1] == ticks[..n - 1];
    var last := ticks[n - 1];
    if n > 1 {
      DisplayProvenance(ticks, n - 1, intent);
      var i :| 0 <= i < n - 1
               && HoldAfter(None, ticks[..n - 1]) == Some(CaptureHold(ticks[i].entry.assessment, ticks[i].nowMs));
      if Stands(HoldAfter(None, ticks[..n - 1]), last.entry, last.nowMs) {
        assert AdoptedAt(ShownAt(None, ticks, n - 1), ticks[i]);
      } else {
        assert AdoptedAt(ShownAt(None, ticks, n - 1), last);
      }
    } else {
      assert ticks[..0] == [];
      assert AdoptedAt(ShownAt(None, ticks, n - 1), last);
    }
  }

  /** The display carries the verdict, direction, size and plan of the tick it was adopted at. */
  ghost predicate AdoptedAt(d: Display, t: Tick) {
    var a := t.entry.assessment;
    && d.hold.heldAt == Some(t.nowMs)
    && d.assessment.verdict == a.verdict && d.assessment.direction == a.direction
    && d.assessment.sizeMultiplier == a.sizeMultiplier && d.assessment.plan == a.plan
  }

  /** Repeating a pass that adopted, at any later time, keeps the hold exactly while it has not aged out and the
      level it adopted is not broken by that same close. */
  lemma {:induction false} RepeatIsNoOpIff(held: Option<HeldVerdict>, e: ReconcileEntry, nowMs: int, later: int)
    requires !Stands(held, e, nowMs) && nowMs <= later
    ensures var adopted := NextHold(held, e, nowMs);
            Stands(Some(adopted), e, later)
            <==> && later - nowMs <= MaxAgeMs(e.assessment.intent)
                 && !Breaks(adopted.invalidation, e.assessment.execution.lastClose)
  {}

  /** One entry is quiet on a repeat: its hold is young enough and, if it was adopted just now, its level holds. */
  ghost predicate QuietOnRepeat(held: Option<HeldVerdict>, e: ReconcileEntry, nowMs: int, later: int) {
    var kept := NextHold(held, e, nowMs);
    !HasAged(kept, later) && (!Stands(held, e, nowMs) ==> !Breaks(kept.invalidation, e.assessment.execution.lastClose))
  }

  lemma {:induction false} StandsOnRepeatIff(held: Option<HeldVerdict>, e: ReconcileEntry, nowMs: int, later: int)
    requires nowMs <= later
    ensures Stands(Some(NextHold(held, e, nowMs)), e, later) <==> QuietOnRepeat(held, e, nowMs, later)
  {
    if !Stands(held, e, nowMs) { RepeatIsNoOpIff(held, e, nowMs, later); }
  }

  lemma {:induction false} NothingOpens(entries: seq<ReconcileEntry>, holds: Holds, nowMs: int)
    requires forall e :: e in entries ==> Stands(HeldFor(holds, e.assessment.intent), e, nowMs)
    ensures Opened(entries, holds, nowMs) == []
  {
    if |entries| > 0 {
      assert entries[|entries| - 1] in entries;
      NothingOpens(entries[..|entries| - 1], holds, nowMs);
    }
  }

  /** A whole pass repeated over the store it left writes nothing, and then opens no record, exactly when every
      entry is quiet. */
  lemma {:induction false} RepeatedPassWritesNothingIff(entries: seq<ReconcileEntry>, holds: Holds, nowMs: int,
                                                        updates: Holds, later: int, updates': Holds)
    requires AllUpdated(entries, holds, nowMs, updates) && nowMs <= later
    requires AllUpdated(entries, holds + updates, later, updates')
    ensures updates' == map[]
            <==> forall i :: 0 <= i < |entries| ==>
              QuietOnRepeat(HeldFor(holds, entries[i].assessment.intent), entries[i], nowMs, later)
    ensures updates' == map[] ==> Opened(entries, holds + updates, later) == []
  {
    hide Stands, NextHold, QuietOnRepeat, CaptureHold;
    forall i | 0 <= i < |entries|
      ensures var k := entries[i].assessment.intent;
              k !in updates' <==> QuietOnRepeat(HeldFor(holds, k), entries[i], nowMs, later)
      ensures StandsIn(entries[i], holds + updates, later) <==> entries[i].assessment.intent !in updates'
    {
      StoredHolds(entries, holds, nowMs, updates, i);
      StandsOnRepeatIff(HeldFor(holds, entries[i].assessment.intent), entries[i], nowMs, later);
      assert UpdateFor(holds + updates, later, updates', entries[i]);
    }
    if updates' == map[] { NothingOpens(entries, holds + updates, later); }
  }

  ghost predicate StandsIn(e: ReconcileEntry, holds: Holds, nowMs: int) {
    Stands(HeldFor(holds, e.assessment.intent), e, nowMs)
  }
}
