/** The shared first-touch exit walk (engine/smc/tracker.py). */
module Tracker {
  import opened Types

  datatype ExitStatus = StoppedOut | Target1Hit | Target2Hit

  datatype ExitLevels = ExitLevels(direction: Side, entry: real, stop: real, target1: real, target2: real)

  datatype ExitEvent = ExitEvent(status: ExitStatus, exitLevel: real, barTime: int, resultR: real)

  predicate StopTouched(direction: Side, stop: real, bar: Candle) {
    if direction == Long then bar.low <= stop else bar.high >= stop
  }

  predicate TargetTouched(direction: Side, target: real, bar: Candle) {
    if direction == Long then bar.high >= target else bar.low <= target
  }

  /** Realized R of leaving at `exit`; zero when the plan risked nothing. */
  function ResultR(direction: Side, entry: real, stop: real, exit: real): real {
    var risk := Abs(entry - stop);
    if risk <= 0.0 then 0.0
    else Round2((if direction == Long then exit - entry else entry - exit) / risk)
  }

  predicate Touches(levels: ExitLevels, bar: Candle) {
    || StopTouched(levels.direction, levels.stop, bar)
    || TargetTouched(levels.direction, levels.target2, bar)
    || TargetTouched(levels.direction, levels.target1, bar)
  }

  /** A touching bar resolves stop first, then target 2, then target 1. */
  function EventOn(levels: ExitLevels, bar: Candle): ExitEvent {
    var status := if StopTouched(levels.direction, levels.stop, bar) then StoppedOut
                  else if TargetTouched(levels.direction, levels.target2, bar) then Target2Hit else Target1Hit;
    var level :=
      match status
      case StoppedOut => levels.stop
      case Target2Hit => levels.target2
      case Target1Hit => levels.target1;
    ExitEvent(status, level, bar.time, ResultR(levels.direction, levels.entry, levels.stop, level))
  }

  ghost predicate FirstTouchAt(levels: ExitLevels, bars: seq<Candle>, i: int) {
    0 <= i < |bars| && Touches(levels, bars[i]) && forall j :: 0 <= j < i ==> !Touches(levels, bars[j])
  }

  /** The exit of the earliest touching bar; `ExitIsEarliestTouch` pins it. */
  function ExitOf(levels: ExitLevels, bars: seq<Candle>): Option<ExitEvent> {
    if |bars| == 0 then None
    else if Touches(levels, bars[0]) then Some(EventOn(levels, bars[0]))
    else ExitOf(levels, bars[1..])
  }

  lemma {:induction false} ExitIsEarliestTouch(levels: ExitLevels, bars: seq<Candle>, e: ExitEvent)
    ensures ExitOf(levels, bars) == Some(e)
            <==> exists i :: FirstTouchAt(levels, bars, i) && e == EventOn(levels, bars[i])
    ensures ExitOf(levels, bars) == None <==> forall i :: 0 <= i < |bars| ==> !Touches(levels, bars[i])
  {
    if |bars| > 0 {
      var rest := bars[1..];
      ExitIsEarliestTouch(levels, rest, e);
      if Touches(levels, bars[0]) {
        assert FirstTouchAt(levels, bars, 0);
        assert forall i :: FirstTouchAt(levels, bars, i) ==> i == 0;
      } else {
        assert forall i :: 0 <= i < |rest| ==> rest[i] == bars[i + 1];
        if ExitOf(levels, rest) == Some(e) {
          var i :| FirstTouchAt(levels, rest, i) && e == EventOn(levels, rest[i]);
          assert FirstTouchAt(levels, bars, i + 1);
        }
        if i :| FirstTouchAt(levels, bars, i) && e == EventOn(levels, bars[i]) {
          assert FirstTouchAt(levels, rest, i - 1);
        }
      }
    }
  }

  /** More bars never move an exit already found. */
  lemma {:induction false} ExitConcat(levels: ExitLevels, a: seq<Candle>, b: seq<Candle>)
    ensures ExitOf(levels, a + b) == if ExitOf(levels, a).Some? then ExitOf(levels, a) else ExitOf(levels, b)
  {
    if |a| == 0 {
      assert a + b == b;
    } else {
      ExitConcat(levels, a[1..], b);
      assert (a + b)[1..] == a[1..] + b;
    }
  }

  /** The bar trades to a level behind the entry, or to one ahead of it. */
  ghost predicate TradesBack(direction: Side, level: real, bar: Candle) {
    match direction case Long => bar.low <= level case Short => level <= bar.high
  }

  ghost predicate TradesOut(direction: Side, level: real, bar: Candle) {
    match direction case Long => level <= bar.high case Short => bar.low <= level
  }

  ghost predicate Untouched(levels: ExitLevels, bar: Candle) {
    && !TradesBack(levels.direction, levels.stop, bar)
    && !TradesOut(levels.direction, levels.target1, bar) && !TradesOut(levels.direction, levels.target2, bar)
  }

  /** The exit in bars: the first to reach a level gives the stop, or else the far target, or else the near one, at
      that level and that bar's time. */
  lemma {:induction false} ExitOnBars(levels: ExitLevels, bars: seq<Candle>, i: nat)
    requires i <= |bars| && forall j :: 0 <= j < i ==> Untouched(levels, bars[j])
    ensures i == |bars| ==> ExitOf(levels, bars) == None
    ensures i < |bars| && !Untouched(levels, bars[i]) ==>
              var side := levels.direction;
              var (status, level) :=
                if TradesBack(side, levels.stop, bars[i]) then (StoppedOut, levels.stop)
                else if TradesOut(side, levels.target2, bars[i]) then (Target2Hit, levels.target2)
                else (Target1Hit, levels.target1);
              ExitOf(levels, bars)
              == Some(ExitEvent(status, level, bars[i].time, ResultR(side, levels.entry, levels.stop, level)))
  {
    hide ResultR;
    if i > 0 {
      var rest := bars[1..];
      assert Untouched(levels, bars[0]) && forall j :: 0 <= j < i - 1 ==> rest[j] == bars[j + 1];
      ExitOnBars(levels, rest, i - 1);
    }
  }

  /** The R of leaving at `exit`: what was made per unit risked, to the nearest hundredth, a tie going up. */
  lemma {:induction false} ResultOnPrices(direction: Side, entry: real, stop: real, exit: real)
    requires entry != stop
    ensures var r, risk := ResultR(direction, entry, stop, exit), Abs(entry - stop);
            var made := match direction case Long => exit - entry case Short => entry - exit;
            && (r * 100.0).Floor as real == r * 100.0
            && -0.005 * risk < r * risk - made <= 0.005 * risk
  {
    var risk := Abs(entry - stop);
    var made := if direction == Long then exit - entry else entry - exit;
    WholeHundredths(made / risk);
    hide Round2;
    GapOver(Round2(made / risk), made, risk);
  }

  lemma {:induction false} WholeHundredths(x: real)
    ensures (Round2(x) * 100.0).Floor as real == Round2(x) * 100.0
    ensures -0.005 < Round2(x) - x <= 0.005
  {
    var n := (x * 100.0 + 0.5).Floor;
    assert Round2(x) == n as real / 100.0;
    assert n as real / 100.0 * 100.0 == n as real;
    FloorIs(n, n as real);
  }

  lemma {:induction false} GapOver(r: real, made: real, risk: real)
    requires risk > 0.0 && -0.005 < r - made / risk <= 0.005
    ensures -0.005 * risk < r * risk - made <= 0.005 * risk
  {
    var x := made / risk;
    assert x * risk == made;
    GapTimes(r, x, made, risk);
  }

  lemma {:induction false} GapTimes(r: real, x: real, made: real, risk: real)
    requires risk > 0.0 && -0.005 < r - x <= 0.005 && x * risk == made
    ensures -0.005 * risk < r * risk - made
    ensures r * risk - made <= 0.005 * risk
  {
    var gap := r - x;
    assert gap * risk == r * risk - made;
    assert (gap + 0.005) * risk > 0.0;
    assert (0.005 - gap) * risk >= 0.0;
  }

  method WalkExitLevels(levels: ExitLevels, bars: seq<Candle>) returns (exit: Option<ExitEvent>)
    ensures exit == ExitOf(levels, bars)
  {
    var long := levels.direction == Long;
    for i := 0 to |bars|
      invariant ExitOf(levels, bars) == ExitOf(levels, bars[i..])
    {
      var bar := bars[i];
      assert bars[i..][1..] == bars[i + 1..];
      if (if long then bar.low <= levels.stop else bar.high >= levels.stop) {
        return Some(ExitEvent(StoppedOut, levels.stop, bar.time,
                              ResultR(levels.direction, levels.entry, levels.stop, levels.stop)));
      }
      if (if long then bar.high >= levels.target2 else bar.low <= levels.target2) {
        return Some(ExitEvent(Target2Hit, levels.target2, bar.time,
                              ResultR(levels.direction, levels.entry, levels.stop, levels.target2)));
      }
      if (if long then bar.high >= levels.target1 else bar.low <= levels.target1) {
        return Some(ExitEvent(Target1Hit, levels.target1, bar.time,
                              ResultR(levels.direction, levels.entry, levels.stop, levels.target1)));
      }
    }
    return None;
  }
}
