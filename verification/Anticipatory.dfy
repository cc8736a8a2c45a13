/** The limit-fill lifecycle (engine/smc/anticipatory.py): a resting limit fills, then the position is
    walked bar by bar. Settlement is called again and again as bars close. */
module Anticipatory {
  import opened Types
  import opened Horizons
  import opened Tracker

  datatype Status = Pending | NeverFilled | Filled | ObjectiveHit | Stopped | Expired

  predicate IsOpen(status: Status) { status == Pending || status == Filled }

  /** The part of a record settlement reads and writes. `openedAtMs` is None when the stored time does
      not parse. Times of fills and closes are whole seconds. */
  datatype Signal = Signal(
    intent: TradingIntent, timeframe: Timeframe, direction: Side,
    entry: real, stop: real, objective: real, rewardRisk: real, openedAtMs: Option<int>,
    status: Status, filledAt: Option<int>, closedAt: Option<int>, closePrice: Option<real>, resultR: Option<real>)

  datatype Patch = Patch(status: Status, filledAt: Option<int>, closedAt: Option<int>,
                         closePrice: Option<real>, resultR: Option<real>)

  // ---------------------------------------------------------------- walking the filled position

  /** Bar `i` of the window decides: the stop always can, the objective not on the fill bar. */
  predicate Decides(s: Signal, bar: Candle, onFillBar: bool) {
    StopTouched(s.direction, s.stop, bar) || (!onFillBar && TargetTouched(s.direction, s.objective, bar))
  }

  function ClosePatch(s: Signal, status: Status, price: real, barTime: int): Patch {
    Patch(status, None, Some(barTime + StepSeconds(s.timeframe)), Some(price),
          Some(ResultR(s.direction, s.entry, s.stop, price)))
  }

  function DecisionOn(s: Signal, bar: Candle): Patch {
    if StopTouched(s.direction, s.stop, bar) then ClosePatch(s, Stopped, s.stop, bar.time)
    else ClosePatch(s, ObjectiveHit, s.objective, bar.time)
  }

  /** The walk over at most `budget` bars; `WalkMeaning` pins it. */
  function Walk(s: Signal, bars: seq<Candle>, onFillBar: bool, budget: nat): Option<Patch>
  {
    if |bars| == 0 || budget == 0 then None
    else if Decides(s, bars[0], onFillBar) then Some(DecisionOn(s, bars[0]))
    else if budget == 1 then Some(ClosePatch(s, Expired, bars[0].close, bars[0].time))
    else Walk(s, bars[1..], false, budget - 1)
  }

  ghost predicate Undecided(s: Signal, bars: seq<Candle>, onFillBar: bool, n: nat) {
    forall j :: 0 <= j < n && j < |bars| ==> !Decides(s, bars[j], onFillBar && j == 0)
  }

  ghost predicate DecidedAt(s: Signal, bars: seq<Candle>, onFillBar: bool, i: int) {
    0 <= i < |bars| && Decides(s, bars[i], onFillBar && i == 0) && Undecided(s, bars, onFillBar, i)
  }

  /** The earliest deciding bar within the budget settles the position; with none, a full budget
      expires at its last close and a shorter one settles nothing. */
  lemma {:induction false} WalkMeaning(s: Signal, bars: seq<Candle>, onFillBar: bool, budget: nat)
    requires budget > 0
    ensures forall i :: DecidedAt(s, bars, onFillBar, i) && i < budget ==>
            Walk(s, bars, onFillBar, budget) == Some(DecisionOn(s, bars[i]))
    ensures Undecided(s, bars, onFillBar, budget) ==>
              Walk(s, bars, onFillBar, budget)
              == if |bars| < budget then None
                 else Some(ClosePatch(s, Expired, bars[budget - 1].close, bars[budget - 1].time))
    ensures Undecided(s, bars, onFillBar, budget) || exists i :: DecidedAt(s, bars, onFillBar, i) && i < budget
  {
    if |bars| > 0 {
      if Decides(s, bars[0], onFillBar) {
        assert DecidedAt(s, bars, onFillBar, 0);
      } else if budget > 1 {
        var rest := bars[1..];
        WalkMeaning(s, rest, false, budget - 1);
        assert forall j :: 0 <= j < |rest| ==> rest[j] == bars[j + 1];
        forall i | DecidedAt(s, bars, onFillBar, i) && i < budget
          ensures Walk(s, bars, onFillBar, budget) == Some(DecisionOn(s, bars[i]))
        {
          assert DecidedAt(s, rest, false, i - 1);
        }
        if i :| DecidedAt(s, rest, false, i) && i < budget - 1 {
          assert DecidedAt(s, bars, onFillBar, i + 1);
        } else {
          assert Undecided(s, bars, onFillBar, budget);
        }
      }
    }
  }

  lemma {:induction false} WalkConcat(s: Signal, a: seq<Candle>, b: seq<Candle>, onFillBar: bool, budget: nat)
    requires Walk(s, a, onFillBar, budget).Some?
    ensures Walk(s, a + b, onFillBar, budget) == Walk(s, a, onFillBar, budget)
  {
    if !Decides(s, a[0], onFillBar) && budget > 1 {
      WalkConcat(s, a[1..], b, false, budget - 1);
      assert (a + b)[1..] == a[1..] + b;
    }
  }

  method WalkFilledPosition(s: Signal, bars: seq<Candle>, firstIsFillBar: bool, maxBars: nat)
    returns (patch: Option<Patch>)
    requires maxBars > 0
    ensures patch == Walk(s, bars, firstIsFillBar, maxBars)
  {
    var long := s.direction == Long;
    var window := Take(bars, maxBars);
    for i := 0 to |window|
      invariant Walk(s, bars, firstIsFillBar, maxBars) ==
                if i == maxBars then Some(ClosePatch(s, Expired, window[i - 1].close, window[i - 1].time))
                else Walk(s, bars[i..], firstIsFillBar && i == 0, maxBars - i)
    {
      var bar := window[i];
      assert bars[i..][1..] == bars[i + 1..];
      if (if long then bar.low <= s.stop else bar.high >= s.stop) {
        return Some(ClosePatch(s, Stopped, s.stop, bar.time));
      }
      if i == 0 && firstIsFillBar {
        continue;
      }
      if (if long then bar.high >= s.objective else bar.low <= s.objective) {
        return Some(ClosePatch(s, ObjectiveHit, s.objective, bar.time));
      }
    }
    if |window| >= maxBars {
      var last := window[maxBars - 1];
      return Some(ClosePatch(s, Expired, last.close, last.time));
    }
    return None;
  }

  // ---------------------------------------------------------------- one settlement

  predicate TouchesLimit(s: Signal, bar: Candle) {
    if s.direction == Long then bar.low <= s.entry else bar.high >= s.entry
  }

  /** The first bar whose range touches the limit, or the length when none does. */
  function FillIndex(s: Signal, bars: seq<Candle>): (i: nat)
    ensures i <= |bars| && (i < |bars| ==> TouchesLimit(s, bars[i]))
    ensures forall j :: 0 <= j < i ==> !TouchesLimit(s, bars[j])
  {
    if |bars| == 0 || TouchesLimit(s, bars[0]) then 0 else 1 + FillIndex(s, bars[1..])
  }

  lemma {:induction false} FillIndexConcat(s: Signal, a: seq<Candle>, b: seq<Candle>)
    requires FillIndex(s, a) < |a|
    ensures FillIndex(s, a + b) == FillIndex(s, a)
  {
    var i := FillIndex(s, a);
    assert forall j :: 0 <= j <= i ==> (a + b)[j] == a[j];
  }

  /** The bars a resting limit is exposed to: the first `maxBars` after adoption. */
  function Waiting(s: Signal, bars: seq<Candle>, openedAtMs: int): seq<Candle> {
    Take(Since(bars, openedAtMs + 1), MaxHoldBars(s.intent))
  }

  function SettlePending(s: Signal, bars: seq<Candle>, openedAtMs: int): Option<Patch> {
    var maxBars, waiting := MaxHoldBars(s.intent), Waiting(s, bars, openedAtMs);
    var fill := FillIndex(s, waiting);
    if fill == |waiting| then
      if |waiting| >= maxBars
      then Some(Patch(NeverFilled, None, Some(waiting[maxBars - 1].time + StepSeconds(s.timeframe)), None, None))
      else None
    else Some(SettleFrom(s, bars, waiting[fill].time))
  }

  /** The patch of a limit filled at `filledAt`: the position is walked from that bar on. */
  function SettleFrom(s: Signal, bars: seq<Candle>, filledAt: int): Patch {
    var outcome := Walk(s, Since(bars, filledAt * 1000), true, MaxHoldBars(s.intent));
    if outcome.Some? then outcome.value.(filledAt := Some(filledAt))
    else Patch(Filled, Some(filledAt), None, None, None)
  }

  function SettleFilled(s: Signal, bars: seq<Candle>, filledAt: int): Option<Patch> {
    var held := Since(bars, filledAt * 1000);
    if |held| == 0 then None else Walk(s, held, held[0].time == filledAt, MaxHoldBars(s.intent))
  }

  function Settle(s: Signal, bars: seq<Candle>): Option<Patch> {
    if s.openedAtMs == None then None
    else if s.status == Pending then SettlePending(s, bars, s.openedAtMs.value)
    else if s.status == Filled && s.filledAt.Some? then SettleFilled(s, bars, s.filledAt.value)
    else None
  }

  method SettleAnticipatorySignal(s: Signal, bars: seq<Candle>) returns (patch: Option<Patch>)
    ensures patch == Settle(s, bars)
  {
    if s.openedAtMs == None {
      return None;
    }
    var maxBars := MaxHoldBars(s.intent);
    if s.status == Pending {
      var waiting := Take(Since(bars, s.openedAtMs.value + 1), maxBars);
      var fill := FillIndex(s, waiting);
      if fill == |waiting| {
        if |waiting| >= maxBars {
          return Some(Patch(NeverFilled, None, Some(waiting[maxBars - 1].time + StepSeconds(s.timeframe)), None, None));
        }
        return None;
      }
      var filledAt := waiting[fill].time;
      var outcome := WalkFilledPosition(s, Since(bars, filledAt * 1000), true, maxBars);
      if outcome.Some? {
        var settled := outcome.value;
        settled := settled.(filledAt := Some(filledAt));
        return Some(settled);
      }
      return Some(Patch(Filled, Some(filledAt), None, None, None));
    }
    if s.status == Filled && s.filledAt.Some? {
      var held := Since(bars, s.filledAt.value * 1000);
      if |held| == 0 {
        return None;
      }
      patch := WalkFilledPosition(s, held, held[0].time == s.filledAt.value, maxBars);
      return;
    }
    return None;
  }

  // ---------------------------------------------------------------- the fill, bar by bar

  /** The batch, told by its bars: `k` is the first bar after adoption, and the limit rests at most the horizon. */
  ghost predicate AdoptedBefore(s: Signal, bars: seq<Candle>, k: nat) {
    && s.openedAtMs.Some? && Ascending(bars) && k <= |bars|
    && (k > 0 ==> bars[k - 1].time * 1000 <= s.openedAtMs.value)
    && (k < |bars| ==> s.openedAtMs.value < bars[k].time * 1000)
  }

  lemma {:induction false} WaitIsBars(s: Signal, bars: seq<Candle>, k: nat)
    requires AdoptedBefore(s, bars, k)
    ensures Waiting(s, bars, s.openedAtMs.value) == Take(bars[k..], MaxHoldBars(s.intent))
  {
    SinceIsSuffix(bars, s.openedAtMs.value + 1, k);
  }

  lemma {:induction false} FillTime(s: Signal, bars: seq<Candle>)
    requires s.status == Pending && s.openedAtMs.Some?
    ensures var wait, patch := Waiting(s, bars, s.openedAtMs.value), Settle(s, bars);
            var fill := FillIndex(s, wait);
            if fill < |wait| then patch.Some? && patch.value.filledAt == Some(wait[fill].time)
            else patch.Some? ==> patch.value.filledAt == None
  {
    hide Walk, Waiting, FillIndex;
  }

  ghost predicate ReachedFirst(s: Signal, wait: seq<Candle>, i: nat)
    requires i < |wait|
  {
    && (if s.direction == Long then wait[i].low <= s.entry else s.entry <= wait[i].high)
    && forall j :: 0 <= j < i ==> if s.direction == Long then s.entry < wait[j].low else wait[j].high < s.entry
  }

  lemma {:induction false} FillIndexOnFields(s: Signal, wait: seq<Candle>, i: nat)
    requires i < |wait|
    ensures FillIndex(s, wait) == i <==> ReachedFirst(s, wait, i)
  {
    if ReachedFirst(s, wait, i) { FillIndexIs(s, wait, i); }
  }

  /** A resting long fills on the first bar after adoption that trades down to the limit, a short on the first that
      trades up to it; the patch carries that bar's time and no other. */
  lemma {:induction false} FillsExactlyAt(s: Signal, bars: seq<Candle>, k: nat, i: nat)
    requires s.status == Pending && AdoptedBefore(s, bars, k) && k <= i < |bars|
    ensures var patch := Settle(s, bars);
            patch.Some? && patch.value.filledAt == Some(bars[i].time)
            <==> && i < k + MaxHoldBars(s.intent)
                 && (if s.direction == Long then bars[i].low <= s.entry else s.entry <= bars[i].high)
                 && forall j :: k <= j < i ==>
                      if s.direction == Long then s.entry < bars[j].low else bars[j].high < s.entry
  {
    hide Settle, Waiting, FillIndex, MaxHoldBars;
    var wait := Take(bars[k..], MaxHoldBars(s.intent));
    WaitIsBars(s, bars, k);
    FillTime(s, bars);
    var fill := FillIndex(s, wait);
    if fill < |wait| { OneBarATime(bars, k + fill, i); }
    if i - k < |wait| {
      FillIndexOnFields(s, wait, i - k);
      ReachedOnBars(s, bars, k, i);
    }
    hide AdoptedBefore, ReachedFirst;
  }

  lemma {:induction false} OneBarATime(bars: seq<Candle>, i: nat, j: nat)
    requires Ascending(bars) && i < |bars| && j < |bars|
    ensures bars[i].time == bars[j].time <==> i == j
  {
    assert i < j ==> bars[i].time < bars[j].time;
    assert j < i ==> bars[j].time < bars[i].time;
  }

  lemma {:induction false} ReachedOnBars(s: Signal, bars: seq<Candle>, k: nat, i: nat)
    requires k <= i < |bars| && i - k < |Take(bars[k..], MaxHoldBars(s.intent))|
    ensures ReachedFirst(s, Take(bars[k..], MaxHoldBars(s.intent)), i - k)
            <==> && (if s.direction == Long then bars[i].low <= s.entry else s.entry <= bars[i].high)
                 && forall j :: k <= j < i ==>
                      if s.direction == Long then s.entry < bars[j].low else bars[j].high < s.entry
  {
    hide MaxHoldBars;
    var wait := Take(bars[k..], MaxHoldBars(s.intent));
    assert forall j :: 0 <= j < |wait| ==> wait[j] == bars[k + j];
    assert forall j :: k <= j < i ==> wait[j - k] == bars[j];
  }

  /** A limit no bar of the wait reaches is never filled exactly once the wait is full, and rests until then. */
  lemma {:induction false} UnreachedRests(s: Signal, bars: seq<Candle>, k: nat)
    requires s.status == Pending && AdoptedBefore(s, bars, k)
    requires forall j :: k <= j < |bars| && j < k + MaxHoldBars(s.intent) ==>
             if s.direction == Long then s.entry < bars[j].low else bars[j].high < s.entry
    ensures var n := MaxHoldBars(s.intent);
            Settle(s, bars)
            == if |bars| < k + n then None
               else Some(Patch(NeverFilled, None, Some(bars[k + n - 1].time + StepSeconds(s.timeframe)), None, None))
  {
    hide Waiting, MaxHoldBars, StepSeconds, SettleFrom, FillIndex;
    var wait := Take(bars[k..], MaxHoldBars(s.intent));
    WaitIsBars(s, bars, k);
    assert forall j :: 0 <= j < |wait| ==> wait[j] == bars[k + j];
    FillIndexIs(s, wait, |wait|);
    hide TouchesLimit, AdoptedBefore;
  }

  // ---------------------------------------------------------------- the position, bar by bar

  /** A long is stopped from below and paid from above, a short the other way round, each at the level itself. */
  ghost predicate ReachesStop(s: Signal, bar: Candle) {
    match s.direction case Long => bar.low <= s.stop case Short => s.stop <= bar.high
  }

  ghost predicate ReachesObjective(s: Signal, bar: Candle) {
    match s.direction case Long => s.objective <= bar.high case Short => bar.low <= s.objective
  }

  /** A bar that leaves the position open. */
  ghost predicate StaysInside(s: Signal, bar: Candle, onFillBar: bool) {
    !ReachesStop(s, bar) && (onFillBar || !ReachesObjective(s, bar))
  }

  /** A position is closed at its stop by the first bar that reaches it, at its objective by the first bar past the
      fill bar that reaches only that, and at the last close of a full horizon that stays inside. */
  lemma {:induction false} WalkOnFields(s: Signal, bars: seq<Candle>, onFillBar: bool, budget: nat, i: nat)
    requires 0 < budget && i <= |bars| && i <= budget
    requires forall j :: 0 <= j < i ==> StaysInside(s, bars[j], onFillBar && j == 0)
    ensures var walk := Walk(s, bars, onFillBar, budget);
            if i == budget then
              walk == Some(ClosePatch(s, Expired, bars[budget - 1].close, bars[budget - 1].time))
            else if i == |bars| then walk == None
            else
              && (ReachesStop(s, bars[i]) ==> walk == Some(ClosePatch(s, Stopped, s.stop, bars[i].time)))
              && (!ReachesStop(s, bars[i]) && ReachesObjective(s, bars[i]) && !(onFillBar && i == 0) ==>
                    walk == Some(ClosePatch(s, ObjectiveHit, s.objective, bars[i].time)))
  {
    hide ClosePatch;
    if i > 0 {
      var rest := bars[1..];
      assert StaysInside(s, bars[0], onFillBar);
      if budget > 1 {
        assert forall j :: 0 <= j < i - 1 ==> rest[j] == bars[j + 1];
        WalkOnFields(s, rest, false, budget - 1, i - 1);
      }
    }
  }

  // ---------------------------------------------------------------- merging patches over a run

  function Coalesce<T>(fresh_: Option<T>, stored: Option<T>): Option<T> { if fresh_.Some? then fresh_ else stored }

  function Merge(s: Signal, patch: Option<Patch>): Signal {
    match patch
    case None => s
    case Some(p) => s.(status := p.status, filledAt := Coalesce(p.filledAt, s.filledAt),
                       closedAt := Coalesce(p.closedAt, s.closedAt),
                       closePrice := Coalesce(p.closePrice, s.closePrice), resultR := Coalesce(p.resultR, s.resultR))
  }

  /** One settlement pass: settle against the batch and store the patch. */
  function Pass(s: Signal, bars: seq<Candle>): Signal { Merge(s, Settle(s, bars)) }

  /** Settling a batch and then a longer one is settling the longer one. */
  lemma {:induction false} PassConcat(s: Signal, a: seq<Candle>, b: seq<Candle>)
    requires Ascending(a + b)
    ensures Pass(Pass(s, a), a + b) == Pass(s, a + b)
  {
    if s.openedAtMs.Some? && s.status == Pending {
      PendingPassConcat(s, a, b);
    } else if s.openedAtMs.Some? && s.status == Filled && s.filledAt.Some? {
      FilledPassConcat(s, a, b);
    }
  }

  lemma {:induction false} FilledPassConcat(s: Signal, a: seq<Candle>, b: seq<Candle>)
    requires s.openedAtMs.Some? && s.status == Filled && s.filledAt.Some?
    ensures Settle(s, a).Some? ==> Settle(s, a + b) == Settle(s, a) && !IsOpen(Settle(s, a).value.status)
    ensures Pass(Pass(s, a), a + b) == Pass(s, a + b)
  {
    var cut, maxBars := s.filledAt.value * 1000, MaxHoldBars(s.intent);
    SinceConcat(a, b, cut);
    if Settle(s, a).Some? {
      var held := Since(a, cut);
      WalkConcat(s, held, Since(b, cut), held[0].time == s.filledAt.value, maxBars);
      WalkTerminal(s, held, held[0].time == s.filledAt.value, maxBars);
    }
  }

  lemma {:induction false} WalkTerminal(s: Signal, bars: seq<Candle>, onFillBar: bool, budget: nat)
    ensures var w := Walk(s, bars, onFillBar, budget);
            w.Some? ==> !IsOpen(w.value.status) && w.value.filledAt == None
  {
    if |bars| > 0 && budget > 1 { WalkTerminal(s, bars[1..], false, budget - 1); }
  }

  lemma {:induction false} WaitingConcat(s: Signal, a: seq<Candle>, b: seq<Candle>, openedAtMs: int)
    ensures var short, long := Waiting(s, a, openedAtMs), Waiting(s, a + b, openedAtMs);
            var fill := FillIndex(s, short);
            && short <= long && (|short| >= MaxHoldBars(s.intent) ==> short == long)
            && (fill < |short| ==> FillIndex(s, long) == fill && long[fill] == short[fill] && short[fill] in a)
  {
    SinceConcat(a, b, openedAtMs + 1);
    TakePrefix(Since(a, openedAtMs + 1), Since(b, openedAtMs + 1), MaxHoldBars(s.intent));
    var short, long := Waiting(s, a, openedAtMs), Waiting(s, a + b, openedAtMs);
    var fill := FillIndex(s, short);
    if fill < |short| {
      FillPrefix(s, short, long);
      assert short[fill] in Since(a, openedAtMs + 1);
      SinceMember(a, openedAtMs + 1, short[fill]);
    }
  }

  lemma {:induction false} FillPrefix(s: Signal, short: seq<Candle>, long: seq<Candle>)
    requires short <= long && FillIndex(s, short) < |short|
    ensures FillIndex(s, long) == FillIndex(s, short) && long[FillIndex(s, short)] == short[FillIndex(s, short)]
  {
    assert long == short + long[|short|..];
    FillIndexConcat(s, short, long[|short|..]);
  }

  /** From the fill bar on, a resting record and a filled one see the same bars. */
  lemma {:induction false} FromFill(s: Signal, a: seq<Candle>, b: seq<Candle>, bar: Candle)
    requires bar in a && Ascending(a + b)
    ensures SettleFrom(s, a, bar.time).status != Filled ==> SettleFrom(s, a + b, bar.time) == SettleFrom(s, a, bar.time)
                                                            && !IsOpen(SettleFrom(s, a, bar.time).status)
    ensures SettleFrom(s, a + b, bar.time)
            == match SettleFilled(s, a + b, bar.time)
               case Some(p) => p.(filledAt := Some(bar.time))
               case None => Patch(Filled, Some(bar.time), None, None, None)
  {
    var held, maxBars := Since(a, bar.time * 1000), MaxHoldBars(s.intent);
    SinceConcat(a, b, bar.time * 1000);
    SinceStartsAt(a + b, bar);
    WalkTerminal(s, held, true, maxBars);
    WalkTerminal(s, Since(a + b, bar.time * 1000), true, maxBars);
    if Walk(s, held, true, maxBars).Some? {
      WalkConcat(s, held, Since(b, bar.time * 1000), true, maxBars);
    }
  }

  lemma {:induction false} PendingPassConcat(s: Signal, a: seq<Candle>, b: seq<Candle>)
    requires s.openedAtMs.Some? && s.status == Pending && Ascending(a + b)
    ensures Settle(s, a).Some? && !IsOpen(Settle(s, a).value.status) ==> Settle(s, a + b) == Settle(s, a)
    ensures Settle(s, a).Some? && Settle(s, a).value.filledAt.Some? ==>
              Settle(s, a + b).Some? && Settle(s, a + b).value.filledAt == Settle(s, a).value.filledAt
    ensures Pass(Pass(s, a), a + b) == Pass(s, a + b)
  {
    var adopted := s.openedAtMs.value;
    WaitingConcat(s, a, b, adopted);
    var waiting := Waiting(s, a, adopted);
    var fill := FillIndex(s, waiting);
    if fill < |waiting| {
      FromFill(s, a, b, waiting[fill]);
      ResumeEqualsPending(s, a, b, waiting[fill]);
    }
  }

  lemma {:induction false} ResumeEqualsPending(s: Signal, a: seq<Candle>, b: seq<Candle>, bar: Candle)
    requires s.openedAtMs.Some? && s.status == Pending && bar in a && Ascending(a + b)
    requires Settle(s, a) == Some(SettleFrom(s, a, bar.time))
             && Settle(s, a + b) == Some(SettleFrom(s, a + b, bar.time))
    ensures Pass(Pass(s, a), a + b) == Pass(s, a + b)
  {
    FromFill(s, a, b, bar);
    var first := Pass(s, a);
    if first.status == Filled {
      var held := Since(a + b, bar.time * 1000);
      SinceStartsAt(a + b, bar);
      assert SettleFilled(first, a + b, bar.time) == SettleFilled(s, a + b, bar.time) by {
        WalkReadsPlanOnly(s, first, held, true, MaxHoldBars(s.intent));
      }
      WalkTerminal(s, Since(a, bar.time * 1000), true, MaxHoldBars(s.intent));
      WalkTerminal(s, held, held[0].time == bar.time, MaxHoldBars(s.intent));
      assert first == s.(status := Filled, filledAt := Some(bar.time));
      assert Settle(first, a + b) == SettleFilled(s, a + b, bar.time);
    }
  }

  /** The walk reads the plan, never the settlement fields. */
  lemma {:induction false} WalkReadsPlanOnly(s: Signal, t: Signal, bars: seq<Candle>, onFillBar: bool, budget: nat)
    requires t == s.(status := t.status, filledAt := t.filledAt, closedAt := t.closedAt, closePrice := t.closePrice,
                     resultR := t.resultR)
    ensures Walk(s, bars, onFillBar, budget) == Walk(t, bars, onFillBar, budget)
  {
    if |bars| > 0 && budget > 1 { WalkReadsPlanOnly(s, t, bars[1..], false, budget - 1); }
  }

  // ---------------------------------------------------------------- the re-entrancy contract

  /** One fetched batch: the bars `from..to` of the closed history. */
  datatype Window = Window(from: nat, to: nat)

  /** What the record still needs from a batch: every bar after the adoption while it rests, every bar from
      the fill on while it is held, nothing once it is closed. */
  ghost predicate Reaches(s: Signal, bars: seq<Candle>, w: Window) {
    && w.from <= w.to <= |bars|
    && (s.openedAtMs.Some? && s.status == Pending ==>
          forall c :: c in bars[..w.from] ==> c.time * 1000 <= s.openedAtMs.value)
    && (s.openedAtMs.Some? && s.status == Filled && s.filledAt.Some? ==>
          forall c :: c in bars[..w.from] ==> c.time < s.filledAt.value)
  }

  function RunWindows(s: Signal, bars: seq<Candle>, windows: seq<Window>): Signal
    requires forall k :: 0 <= k < |windows| ==> windows[k].from <= windows[k].to <= |bars|
  {
    if |windows| == 0 then s
    else
      var w := windows[|windows| - 1];
      Pass(RunWindows(s, bars, windows[..|windows| - 1]), bars[w.from..w.to])
  }

  /** A batch that reaches what the record needs settles it as the whole history up to its end would. */
  lemma {:induction false} ReachingIsPrefix(s: Signal, bars: seq<Candle>, w: Window)
    requires Reaches(s, bars, w)
    ensures Settle(s, bars[w.from..w.to]) == Settle(s, bars[..w.to])
  {
    hide Walk, Since, FillIndex, ClosePatch;
    var skipped, batch := bars[..w.from], bars[w.from..w.to];
    assert bars[..w.to] == skipped + batch;
    if s.openedAtMs.Some? && s.status == Filled && s.filledAt.Some? {
      SinceSkips(skipped, batch, s.filledAt.value * 1000);
    } else if s.openedAtMs.Some? && s.status == Pending {
      var adopted := s.openedAtMs.value;
      SinceSkips(skipped, batch, adopted + 1);
      var waiting := Waiting(s, batch, adopted);
      var fill := FillIndex(s, waiting);
      if fill < |waiting| {
        assert waiting[fill] in Since(batch, adopted + 1);
        SinceMember(batch, adopted + 1, waiting[fill]);
        SinceSkips(skipped, batch, waiting[fill].time * 1000);
      }
    }
  }

  ghost predicate Chained(bars: seq<Candle>, windows: seq<Window>) {
    && Ascending(bars)
    && (forall k :: 0 <= k < |windows| ==> windows[k].from <= windows[k].to <= |bars|)
    && (forall j, k :: 0 <= j < k < |windows| ==> windows[j].to <= windows[k].to)
  }

  /** Each batch reaches what the record needs at the moment it is settled. */
  ghost predicate ReachingRun(s: Signal, bars: seq<Candle>, windows: seq<Window>)
    requires Chained(bars, windows)
  {
    forall k :: 0 <= k < |windows| ==> Reaches(RunWindows(s, bars, windows[..k]), bars, windows[k])
  }

  /** Any chain of batches, each reaching what the record needs by then, leaves it exactly as one pass over
      the whole history up to the last batch would. */
  lemma {:induction false} RunIsOnePass(s: Signal, bars: seq<Candle>, windows: seq<Window>)
    requires |windows| > 0 && Chained(bars, windows) && ReachingRun(s, bars, windows)
    ensures RunWindows(s, bars, windows) == Pass(s, bars[..windows[|windows| - 1].to])
  {
    var n := |windows| - 1;
    var w, earlier := windows[n], windows[..n];
    var before := RunWindows(s, bars, earlier);
    assert Reaches(before, bars, w);
    ReachingIsPrefix(before, bars, w);
    if n > 0 {
      EarlierReaches(s, bars, windows);
      RunIsOnePass(s, bars, earlier);
      assert earlier[n - 1] == windows[n - 1];
      PassPrefix(s, bars, windows[n - 1].to, w.to);
    }
  }

  lemma {:induction false} EarlierReaches(s: Signal, bars: seq<Candle>, windows: seq<Window>)
    requires |windows| > 0 && Chained(bars, windows) && ReachingRun(s, bars, windows)
    ensures Chained(bars, windows[..|windows| - 1]) && ReachingRun(s, bars, windows[..|windows| - 1])
  {
    var earlier := windows[..|windows| - 1];
    forall k | 0 <= k < |earlier| ensures Reaches(RunWindows(s, bars, earlier[..k]), bars, earlier[k]) {
      assert earlier[..k] == windows[..k] && earlier[k] == windows[k];
    }
  }

  // ---------------------------------------------------------------- batches that reach back to the adoption

  /** Fills lie after the adoption. */
  ghost predicate Coherent(s: Signal) {
    s.openedAtMs.Some? && s.filledAt.Some? ==> s.filledAt.value * 1000 > s.openedAtMs.value
  }

  /** A window that skips only bars opened no later than the adoption. */
  ghost predicate Covers(s: Signal, bars: seq<Candle>, w: Window) {
    && w.from <= w.to <= |bars|
    && (s.openedAtMs.Some? ==> forall c :: c in bars[..w.from] ==> c.time * 1000 <= s.openedAtMs.value)
  }

  lemma {:induction false} PassCoherent(s: Signal, bars: seq<Candle>)
    requires Coherent(s)
    ensures Coherent(Pass(s, bars)) && Pass(s, bars).openedAtMs == s.openedAtMs
  {
    if s.openedAtMs.Some? && s.status == Filled && s.filledAt.Some? {
      var held := Since(bars, s.filledAt.value * 1000);
      if |held| > 0 { WalkTerminal(s, held, held[0].time == s.filledAt.value, MaxHoldBars(s.intent)); }
    } else if s.openedAtMs.Some? && s.status == Pending {
      var waiting := Waiting(s, bars, s.openedAtMs.value);
      var fill := FillIndex(s, waiting);
      if fill < |waiting| {
        assert waiting[fill] in Since(bars, s.openedAtMs.value + 1);
        SinceMember(bars, s.openedAtMs.value + 1, waiting[fill]);
      }
    }
  }

  lemma {:induction false} RunCoherent(s: Signal, bars: seq<Candle>, windows: seq<Window>)
    requires Coherent(s) && forall k :: 0 <= k < |windows| ==> windows[k].from <= windows[k].to <= |bars|
    ensures Coherent(RunWindows(s, bars, windows)) && RunWindows(s, bars, windows).openedAtMs == s.openedAtMs
  {
    if |windows| > 0 {
      var w, earlier := windows[|windows| - 1], windows[..|windows| - 1];
      RunCoherent(s, bars, earlier);
      PassCoherent(RunWindows(s, bars, earlier), bars[w.from..w.to]);
    }
  }

  /** So growing batches that each reach back to the adoption are one pass over the last batch alone. */
  lemma {:induction false} CoveringRunIsOnePass(s: Signal, bars: seq<Candle>, windows: seq<Window>)
    requires Coherent(s) && |windows| > 0 && Chained(bars, windows)
    requires forall k :: 0 <= k < |windows| ==> Covers(s, bars, windows[k])
    ensures var last := windows[|windows| - 1];
            RunWindows(s, bars, windows) == Pass(s, bars[last.from..last.to]) == Pass(s, bars[..last.to])
  {
    forall k | 0 <= k < |windows| ensures Reaches(RunWindows(s, bars, windows[..k]), bars, windows[k]) {
      RunCoherent(s, bars, windows[..k]);
      assert Covers(s, bars, windows[k]);
    }
    RunIsOnePass(s, bars, windows);
    assert Covers(s, bars, windows[|windows| - 1]);
    ReachingIsPrefix(s, bars, windows[|windows| - 1]);
  }

  lemma {:induction false} PassPrefix(s: Signal, bars: seq<Candle>, m: nat, n: nat)
    requires Ascending(bars) && m <= n <= |bars|
    ensures Pass(Pass(s, bars[..m]), bars[..n]) == Pass(s, bars[..n])
  {
    assert bars[..n] == bars[..m] + bars[m..n];
    PassConcat(s, bars[..m], bars[m..n]);
  }

  /** A terminal patch is never contradicted: the same record settles the same way on every longer
      batch, and once stored it is never patched again. */
  lemma {:induction false} TerminalPatchStands(s: Signal, a: seq<Candle>, b: seq<Candle>)
    requires Ascending(a + b) && Settle(s, a).Some? && !IsOpen(Settle(s, a).value.status)
    ensures Settle(s, a + b) == Settle(s, a)
    ensures Settle(Pass(s, a), a + b) == None
  {
    if s.status == Pending { PendingPassConcat(s, a, b); } else { FilledPassConcat(s, a, b); }
  }

  /** A fill, once issued, keeps its bar on every longer batch. */
  lemma {:induction false} FillStands(s: Signal, a: seq<Candle>, b: seq<Candle>)
    requires Ascending(a + b) && s.status == Pending && Settle(s, a).Some? && Settle(s, a).value.filledAt.Some?
    ensures Settle(s, a + b).Some? && Settle(s, a + b).value.filledAt == Settle(s, a).value.filledAt
  {
    PendingPassConcat(s, a, b);
  }

  // ---------------------------------------------------------------- a window that starts too late

  /** The full hold decides within its horizon, or has not reached its end. */
  ghost predicate NotExpiring(s: Signal, held: seq<Candle>) {
    |held| < MaxHoldBars(s.intent) || !Undecided(s, held, true, MaxHoldBars(s.intent))
  }

  /** A filled record settled on a window that has lost some of its held bars restarts its horizon. It
      still settles as on the full history exactly when no lost bar decided the position and the hold
      does not run out undecided. */
  lemma {:induction false} LateWindowAgreesIff(s: Signal, bars: seq<Candle>, from: nat, fill: Candle)
    requires s.openedAtMs.Some? && s.status == Filled && s.filledAt == Some(fill.time)
    requires Ascending(bars) && fill in bars && from <= |bars|
    ensures var cut := fill.time * 1000;
            var lost, held := |Since(bars[..from], cut)|, Since(bars, cut);
            Settle(s, bars[from..]) == Settle(s, bars)
            <==> lost == 0 || (Undecided(s, held, true, lost) && NotExpiring(s, held))
  {
    var cut, maxBars := fill.time * 1000, MaxHoldBars(s.intent);
    var lost, kept, held := Since(bars[..from], cut), Since(bars[from..], cut), Since(bars, cut);
    assert bars == bars[..from] + bars[from..];
    SinceConcat(bars[..from], bars[from..], cut);
    SinceStartsAt(bars, fill);
    assert Settle(s, bars) == Walk(s, held, true, maxBars);
    if |lost| > 0 {
      SinceAscending(bars, cut);
      assert held[|lost|..] == kept;
      assert Settle(s, bars[from..]) == Walk(s, kept, false, maxBars) by {
        if |kept| > 0 { assert kept[0] == held[|lost|] && held[0].time < held[|lost|].time; }
      }
      LateWalk(s, held, |lost|, maxBars);
      ExpiryIsRunningOut(s, held, maxBars);
    } else {
      assert held == kept;
    }
  }

  lemma {:induction false} ExpiryIsRunningOut(s: Signal, held: seq<Candle>, budget: nat)
    requires budget > 0
    ensures var full := Walk(s, held, true, budget);
            full == None || full.value.status != Expired <==> |held| < budget || !Undecided(s, held, true, budget)
  {
    WalkMeaning(s, held, true, budget);
  }

  /** The wait of a resting record cut at `from`: the bars lost, those kept, and the whole. */
  ghost predicate CutWait(s: Signal, bars: seq<Candle>, from: nat, lost: nat, kept: seq<Candle>, all: seq<Candle>) {
    && s.openedAtMs.Some? && s.status == Pending && Ascending(bars) && from <= |bars|
    && lost == |Since(bars[..from], s.openedAtMs.value + 1)| && kept == Since(bars[from..], s.openedAtMs.value + 1)
    && all == Since(bars, s.openedAtMs.value + 1)
  }

  lemma {:induction false} CutWaitFacts(s: Signal, bars: seq<Candle>, from: nat, lost: nat, kept: seq<Candle>,
                                        all: seq<Candle>)
    requires CutWait(s, bars, from, lost, kept, all)
    ensures lost <= |all| && kept == all[lost..] && Ascending(all)
  {
    assert bars == bars[..from] + bars[from..];
    SinceConcat(bars[..from], bars[from..], s.openedAtMs.value + 1);
    SinceAscending(bars, s.openedAtMs.value + 1);
  }

  lemma {:induction false} PendingFills(s: Signal, bars: seq<Candle>, fill: nat)
    requires s.openedAtMs.Some? && s.status == Pending
    requires var waiting := Waiting(s, bars, s.openedAtMs.value); fill == FillIndex(s, waiting) < |waiting|
    ensures Settle(s, bars) == Some(SettleFrom(s, bars, Waiting(s, bars, s.openedAtMs.value)[fill].time))
  {}

  function UnfilledPatch(s: Signal, waiting: seq<Candle>): Option<Patch> {
    var maxBars := MaxHoldBars(s.intent);
    if |waiting| < maxBars then None
    else Some(Patch(NeverFilled, None, Some(waiting[maxBars - 1].time + StepSeconds(s.timeframe)), None, None))
  }

  lemma {:induction false} PendingUnfilled(s: Signal, bars: seq<Candle>)
    requires s.openedAtMs.Some? && s.status == Pending
    requires var waiting := Waiting(s, bars, s.openedAtMs.value); FillIndex(s, waiting) == |waiting|
    ensures Settle(s, bars) == UnfilledPatch(s, Waiting(s, bars, s.openedAtMs.value))
  {}

  /** A fill beyond the lost bars, or a wait that is not over, settles the same. */
  lemma {:induction false} LateWaitAgrees(s: Signal, bars: seq<Candle>, from: nat, lost: nat, kept: seq<Candle>,
                                          all: seq<Candle>)
    requires CutWait(s, bars, from, lost, kept, all)
    requires var waiting := Take(all, MaxHoldBars(s.intent));
             var fill := FillIndex(s, waiting);
             if fill < |waiting| then fill >= lost else lost == 0 || |all| < MaxHoldBars(s.intent)
    ensures Settle(s, bars[from..]) == Settle(s, bars)
  {
    hide Settle, SettleFrom, Since, FillIndex, TouchesLimit;
    CutWaitFacts(s, bars, from, lost, kept, all);
    var maxBars := MaxHoldBars(s.intent);
    var waiting, late := Take(all, maxBars), Take(kept, maxBars);
    var fill := FillIndex(s, waiting);
    if fill < |waiting| {
      LateFillSame(s, all, lost, maxBars);
      KeptBar(bars, from, s.openedAtMs.value + 1, fill - lost);
      SameFromFill(s, bars, from, all[fill]);
      PendingFills(s, bars, fill);
      PendingFills(s, bars[from..], fill - lost);
    } else if lost == 0 {
      assert kept == all;
      PendingUnfilled(s, bars);
      PendingUnfilled(s, bars[from..]);
    } else {
      LateNoFill(s, all, lost);
      PendingUnfilled(s, bars);
      PendingUnfilled(s, bars[from..]);
    }
  }

  /** A fill among the lost bars, or a wait that is over without one, settles differently. */
  lemma {:induction false} LateWaitDiffers(s: Signal, bars: seq<Candle>, from: nat, lost: nat, kept: seq<Candle>,
                                           all: seq<Candle>)
    requires CutWait(s, bars, from, lost, kept, all) && lost > 0
    requires var waiting := Take(all, MaxHoldBars(s.intent));
             var fill := FillIndex(s, waiting);
             if fill < |waiting| then fill < lost else |all| >= MaxHoldBars(s.intent)
    ensures Settle(s, bars[from..]) != Settle(s, bars)
  {
    CutWaitFacts(s, bars, from, lost, kept, all);
    PendingPatch(s, bars);
    PendingPatch(s, bars[from..]);
    var maxBars := MaxHoldBars(s.intent);
    var waiting, late := Take(all, maxBars), Take(kept, maxBars);
    var fill, lateFill := FillIndex(s, waiting), FillIndex(s, late);
    if fill < |waiting| {
      if lateFill < |late| { assert all[fill].time < all[lost + lateFill].time; }
    } else if lateFill == |late| && |late| >= maxBars {
      assert all[maxBars - 1].time < all[lost + maxBars - 1].time;
    }
  }

  /** A resting record settled on a window that has lost some bars after its adoption restarts its wait. It
      still settles as on the full history exactly when the fill lies beyond the lost bars or, with no fill,
      the wait is not over. */
  lemma {:induction false} LatePendingAgreesIff(s: Signal, bars: seq<Candle>, from: nat)
    requires s.openedAtMs.Some? && s.status == Pending && Ascending(bars) && from <= |bars|
    ensures var adopted := s.openedAtMs.value;
            var lost, all := |Since(bars[..from], adopted + 1)|, Since(bars, adopted + 1);
            var waiting := Take(all, MaxHoldBars(s.intent));
            var fill := FillIndex(s, waiting);
            Settle(s, bars[from..]) == Settle(s, bars)
            <==> lost == 0 || (if fill < |waiting| then fill >= lost else |all| < MaxHoldBars(s.intent))
  {
    var ms := s.openedAtMs.value + 1;
    var lost, kept, all := |Since(bars[..from], ms)|, Since(bars[from..], ms), Since(bars, ms);
    var waiting := Take(all, MaxHoldBars(s.intent));
    var fill := FillIndex(s, waiting);
    if if fill < |waiting| then fill >= lost else lost == 0 || |all| < MaxHoldBars(s.intent) {
      LateWaitAgrees(s, bars, from, lost, kept, all);
    } else {
      LateWaitDiffers(s, bars, from, lost, kept, all);
    }
  }

  /** What a resting record's patch says, bar by bar. */
  lemma {:induction false} PendingPatch(s: Signal, bars: seq<Candle>)
    requires s.openedAtMs.Some? && s.status == Pending
    ensures var waiting, maxBars := Waiting(s, bars, s.openedAtMs.value), MaxHoldBars(s.intent);
            var fill := FillIndex(s, waiting);
            if fill < |waiting| then
              Settle(s, bars) == Some(SettleFrom(s, bars, waiting[fill].time))
              && SettleFrom(s, bars, waiting[fill].time).filledAt == Some(waiting[fill].time)
            else if |waiting| >= maxBars then
              Settle(s, bars)
              == Some(Patch(NeverFilled, None, Some(waiting[maxBars - 1].time + StepSeconds(s.timeframe)), None, None))
            else Settle(s, bars) == None
  {}

  /** The first touching bar, told by its index. */
  lemma {:induction false} FillIndexIs(s: Signal, bars: seq<Candle>, i: nat)
    requires i <= |bars| && (i < |bars| ==> TouchesLimit(s, bars[i]))
    requires forall j :: 0 <= j < i ==> !TouchesLimit(s, bars[j])
    ensures FillIndex(s, bars) == i
  {}

  /** The wait restarted `j` bars late finds a fill beyond the lost bars at the same bar. */
  lemma {:induction false} LateFillSame(s: Signal, all: seq<Candle>, j: nat, maxBars: nat)
    requires j <= FillIndex(s, Take(all, maxBars)) < |Take(all, maxBars)|
    ensures var fill, late := FillIndex(s, Take(all, maxBars)), Take(all[j..], maxBars);
            FillIndex(s, late) == fill - j < |late| && late[fill - j] == all[fill]
  {
    var waiting, late := Take(all, maxBars), Take(all[j..], maxBars);
    var fill := FillIndex(s, waiting);
    assert |late| > fill - j;
    forall k | 0 <= k <= fill - j ensures late[k] == waiting[j + k] {}
    FillIndexIs(s, late, fill - j);
  }

  /** With no fill in a wait that is not over, the restarted wait has none either. */
  lemma {:induction false} LateNoFill(s: Signal, all: seq<Candle>, j: nat)
    requires j <= |all| && FillIndex(s, all) == |all|
    ensures FillIndex(s, all[j..]) == |all| - j
  {
    var late := all[j..];
    forall k | 0 <= k < |late| ensures late[k] == all[j + k] {}
    FillIndexIs(s, late, |late|);
  }

  /** From a bar both hold, the window and the full history see the same position. */
  lemma {:induction false} SameFromFill(s: Signal, bars: seq<Candle>, from: nat, bar: Candle)
    requires Ascending(bars) && from <= |bars| && bar in bars[from..]
    ensures SettleFrom(s, bars[from..], bar.time) == SettleFrom(s, bars, bar.time)
  {
    EarlierThan(bars, from, bar);
    hide Walk, Since, Ascending;
    assert bars == bars[..from] + bars[from..];
    SinceSkips(bars[..from], bars[from..], bar.time * 1000);
  }

  lemma {:induction false} EarlierThan(bars: seq<Candle>, from: nat, bar: Candle)
    requires Ascending(bars) && from <= |bars| && bar in bars[from..]
    ensures forall c :: c in bars[..from] ==> c.time < bar.time
  {
    var k :| 0 <= k < |bars| - from && bars[from..][k] == bar;
    forall c | c in bars[..from] ensures c.time < bar.time {
      var i :| 0 <= i < from && bars[i] == c;
      assert bars[i].time < bars[from + k].time;
    }
  }

  lemma {:induction false} KeptBar(bars: seq<Candle>, from: nat, ms: int, k: nat)
    requires from <= |bars| && k < |Since(bars[from..], ms)|
    ensures Since(bars[from..], ms)[k] in bars[from..]
  {
    SinceMember(bars[from..], ms, Since(bars[from..], ms)[k]);
  }

  lemma {:induction false} SinceAscending(bars: seq<Candle>, ms: int)
    requires Ascending(bars)
    ensures Ascending(Since(bars, ms))
  {
    if |bars| > 0 {
      var rest := Since(bars[1..], ms);
      SinceAscending(bars[1..], ms);
      forall k | 0 <= k < |rest|
        ensures bars[0].time < rest[k].time
      {
        assert rest[k] in rest;
        SinceMember(bars[1..], ms, rest[k]);
        var i :| 0 <= i < |bars[1..]| && bars[1..][i] == rest[k];
        assert bars[0].time < bars[i + 1].time;
      }
    }
  }

  /** The walk restarted `j` bars late, against the walk from the fill bar. */
  lemma {:induction false} LateWalk(s: Signal, held: seq<Candle>, j: nat, budget: nat)
    requires 0 < j <= |held| && budget > 0 && Ascending(held)
    ensures var full := Walk(s, held, true, budget);
            Walk(s, held[j..], false, budget) == full
            <==> Undecided(s, held, true, j) && (full == None || full.value.status != Expired)
  {
    if Undecided(s, held, true, budget) {
      LateUndecided(s, held, j, budget);
    } else {
      LateDecided(s, held, j, budget);
    }
  }

  lemma {:induction false} LateUndecided(s: Signal, held: seq<Candle>, j: nat, budget: nat)
    requires 0 < j <= |held| && budget > 0 && Ascending(held) && Undecided(s, held, true, budget)
    ensures var full := Walk(s, held, true, budget);
            Walk(s, held[j..], false, budget) == full
            <==> Undecided(s, held, true, j) && (full == None || full.value.status != Expired)
  {
    hide ResultR, StopTouched, TargetTouched, Walk, StepSeconds;
    var late := held[j..];
    var full, restarted := Walk(s, held, true, budget), Walk(s, late, false, budget);
    WalkMeaning(s, held, true, budget);
    WalkMeaning(s, late, false, budget);
    assert forall k :: 0 <= k < |late| ==> late[k] == held[j + k];
    if |held| < budget {
      assert Undecided(s, late, false, budget);
    } else if restarted.Some? {
      ClosesAtBar(s, late, false, budget);
      var k :| 0 <= k < |late| && restarted.value.closedAt == Some(late[k].time + StepSeconds(s.timeframe))
        && (restarted.value.status == Expired ==> k == budget - 1);
      assert j + k > budget - 1 ==> held[budget - 1].time < held[j + k].time;
      if restarted.value.status != Expired { assert full.value.status == Expired; }
    }
  }

  lemma {:induction false} LateDecided(s: Signal, held: seq<Candle>, j: nat, budget: nat)
    requires 0 < j <= |held| && budget > 0 && Ascending(held) && !Undecided(s, held, true, budget)
    ensures var full := Walk(s, held, true, budget);
            Walk(s, held[j..], false, budget) == full
            <==> Undecided(s, held, true, j) && (full == None || full.value.status != Expired)
  {
    hide ResultR, StopTouched, TargetTouched, Walk, StepSeconds;
    var late := held[j..];
    var restarted := Walk(s, late, false, budget);
    WalkMeaning(s, held, true, budget);
    WalkMeaning(s, late, false, budget);
    assert forall k :: 0 <= k < |late| ==> late[k] == held[j + k];
    var i :| DecidedAt(s, held, true, i) && i < budget;
    if i >= j {
      assert DecidedAt(s, late, false, i - j);
    } else if restarted.Some? {
      ClosesAtBar(s, late, false, budget);
      var k :| 0 <= k < |late| && restarted.value.closedAt == Some(late[k].time + StepSeconds(s.timeframe));
      assert held[i].time < held[j + k].time;
    }
  }

  /** A walk closes at the end of one of its bars; an expiry at its last budgeted one. */
  lemma {:induction false} ClosesAtBar(s: Signal, bars: seq<Candle>, onFillBar: bool, budget: nat)
    requires Walk(s, bars, onFillBar, budget).Some?
    ensures var p := Walk(s, bars, onFillBar, budget).value;
            exists k :: 0 <= k < |bars| && p.closedAt == Some(bars[k].time + StepSeconds(s.timeframe))
                        && (p.status == Expired ==> k == budget - 1)
  {
    if Decides(s, bars[0], onFillBar) || budget == 1 {
      assert Walk(s, bars, onFillBar, budget).value.closedAt == Some(bars[0].time + StepSeconds(s.timeframe));
    } else {
      ClosesAtBar(s, bars[1..], false, budget - 1);
      var p := Walk(s, bars[1..], false, budget - 1).value;
      var k :| 0 <= k < |bars[1..]| && p.closedAt == Some(bars[1..][k].time + StepSeconds(s.timeframe))
               && (p.status == Expired ==> k == budget - 2);
      assert bars[1..][k] == bars[k + 1];
    }
  }

  // ---------------------------------------------------------------- late windows that contradict

  const RESTING := Signal(Scalp, M15, Long, 10.0, 9.0, 12.0, 2.0, Some(0), Pending, None, None, None, None)
  const STOPPING := Candle(900, 10.5, 10.5, 8.5, 9.5)
  const HITTING := Candle(1800, 9.5, 12.5, 9.5, 12.0)

  /** Stopped on the full history, the same held position hits its objective on a window that lost the
      stopping bar. */
  lemma {:induction false} LateWindowContradictsHeld()
    ensures var held := RESTING.(status := Filled, filledAt := Some(600));
            var bars := [Candle(600, 10.5, 10.5, 9.9, 10.5), STOPPING, HITTING];
            && Ascending(bars)
            && Settle(held, bars) == Some(ClosePatch(held, Stopped, 9.0, 900))
            && Settle(held, bars[2..]) == Some(ClosePatch(held, ObjectiveHit, 12.0, 1800))
  {
    var bars := [Candle(600, 10.5, 10.5, 9.9, 10.5), STOPPING, HITTING];
    assert bars[1..] == [STOPPING, HITTING] && bars[1..][1..] == bars[2..] == [HITTING] && bars[2..][1..] == [];
    assert Since([HITTING], 600000) == [HITTING];
    assert Since(bars[1..], 600000) == bars[1..];
    assert Since(bars, 600000) == bars;
    var held := RESTING.(status := Filled, filledAt := Some(600));
    assert Walk(held, bars[1..], false, 15) == Some(ClosePatch(held, Stopped, 9.0, 900));
    assert Walk(held, bars, true, 16) == Walk(held, bars[1..], false, 15);
    assert Walk(held, [HITTING], false, 16) == Some(ClosePatch(held, ObjectiveHit, 12.0, 1800));
  }

  /** Filled and stopped on the full history, the same resting limit fills a bar later on a window that
      lost its fill bar, and is still open. */
  lemma {:induction false} LateWindowContradictsResting()
    ensures var bars := [STOPPING, HITTING];
            && Ascending(bars)
            && Settle(RESTING, bars) == Some(ClosePatch(RESTING, Stopped, 9.0, 900).(filledAt := Some(900)))
            && Settle(RESTING, bars[1..]) == Some(Patch(Filled, Some(1800), None, None, None))
  {
    var bars := [STOPPING, HITTING];
    assert bars[1..] == [HITTING] && [HITTING][1..] == [];
    assert Since([HITTING], 1) == [HITTING];
    assert Since(bars, 1) == bars;
    assert Since([HITTING], 900000) == [HITTING];
    assert Since(bars, 900000) == bars;
    assert Since([HITTING], 1800000) == [HITTING];
    PendingPatch(RESTING, bars);
    PendingPatch(RESTING, bars[1..]);
    assert Walk(RESTING, [HITTING], true, 16) == None;
  }
}
