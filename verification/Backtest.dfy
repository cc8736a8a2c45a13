/** The replay loops of `run_backtest` (engine/smc/quant.py). Setup classification and ATR at each bar
    come from code outside the model and are given as inputs. */
module Backtest {
  import opened Types

  // ---------------------------------------------------------------- one-pass statistics

  /** The equity after each trade, starting from zero. */
  function Curve(rs: seq<real>): (curve: seq<real>)
    ensures |curve| == |rs| + 1
  {
    if |rs| == 0 then [0.0]
    else
      var before := Curve(rs[..|rs| - 1]);
      before + [before[|rs| - 1] + rs[|rs| - 1]]
  }

  /** Every trade moves the equity by its own R, from zero. */
  lemma {:induction false} CurveMoves(rs: seq<real>, k: nat)
    requires k < |rs|
    ensures Curve(rs)[0] == 0.0 && Curve(rs)[k + 1] - Curve(rs)[k] == rs[k]
  {
    if k < |rs| - 1 { CurveMoves(rs[..|rs| - 1], k); } else if k > 0 { CurveMoves(rs[..|rs| - 1], k - 1); }
  }

  /** `d` is the largest fall of equity from any earlier point to any later one, the start included. */
  ghost predicate IsMaxDrawdown(curve: seq<real>, d: real) {
    && (forall a, b :: 0 <= a <= b < |curve| ==> curve[a] - curve[b] <= d)
    && (exists a, b :: 0 <= a <= b < |curve| && curve[a] - curve[b] == d)
  }

  ghost predicate IsPeak(curve: seq<real>, peak: real) {
    && (forall a :: 0 <= a < |curve| ==> curve[a] <= peak)
    && (exists a :: 0 <= a < |curve| && curve[a] == peak)
  }

  /** One bar of the running drawdown. */
  lemma {:induction false} DrawdownStep(curve: seq<real>, equity: real, peak: real, d: real)
    requires IsPeak(curve, peak) && IsMaxDrawdown(curve, d)
    ensures var top := Max(peak, equity);
            IsPeak(curve + [equity], top) && IsMaxDrawdown(curve + [equity], Max(d, top - equity))
  {
    var after, m := curve + [equity], |curve|;
    var top := Max(peak, equity);
    var worst := Max(d, top - equity);
    var p :| 0 <= p < |curve| && curve[p] == peak;
    var high := if equity > peak then m else p;
    assert after[high] == top;
    assert IsPeak(after, top);
    forall a, b | 0 <= a <= b < |after|
      ensures after[a] - after[b] <= worst
    {
      if b < m { assert after[a] == curve[a] && after[b] == curve[b] && curve[a] - curve[b] <= d; }
    }
    if d >= top - equity {
      var a, b :| 0 <= a <= b < |curve| && curve[a] - curve[b] == d;
      assert after[a] - after[b] == worst;
    } else {
      assert after[high] - after[m] == worst;
    }
  }

  /** How many entries of `ts[a..b]` have the sign asked for: wins for `up`, losses otherwise. */
  function CountSign(ts: seq<real>, up: bool, a: nat, b: nat): nat
    requires a <= b <= |ts|
  {
    if a == b then 0 else CountSign(ts, up, a, b - 1) + if HasSign(ts[b - 1], up) then 1 else 0
  }

  predicate HasSign(r: real, up: bool) { if up then r > 0.0 else r < 0.0 }

  /** No entry of the opposite sign in `ts[a..b]`; flat trades interrupt nothing. */
  ghost predicate Unbroken(ts: seq<real>, up: bool, a: nat, b: nat)
    requires a <= b <= |ts|
  {
    forall k :: a <= k < b ==> !HasSign(ts[k], !up)
  }

  /** `run` is the count of the longest unbroken stretch ending at `n`. */
  ghost predicate IsCurrentRun(ts: seq<real>, up: bool, n: nat, run: nat)
    requires n <= |ts|
  {
    && (forall a :: 0 <= a <= n && Unbroken(ts, up, a, n) ==> CountSign(ts, up, a, n) <= run)
    && (exists a :: 0 <= a <= n && Unbroken(ts, up, a, n) && CountSign(ts, up, a, n) == run)
  }

  /** `best` is the most wins (losses) in any stretch that contains no loss (win). */
  ghost predicate IsLongestStreak(ts: seq<real>, up: bool, n: nat, best: nat)
    requires n <= |ts|
  {
    && (forall a, b :: 0 <= a <= b <= n && Unbroken(ts, up, a, b) ==> CountSign(ts, up, a, b) <= best)
    && (exists a, b :: 0 <= a <= b <= n && Unbroken(ts, up, a, b) && CountSign(ts, up, a, b) == best)
  }

  lemma {:induction false} RunStep(ts: seq<real>, up: bool, n: nat, run: nat, run': nat)
    requires n < |ts| && IsCurrentRun(ts, up, n, run)
    requires run' == if HasSign(ts[n], up) then run + 1 else if HasSign(ts[n], !up) then 0 else run
    ensures IsCurrentRun(ts, up, n + 1, run')
  {
    var m := n + 1;
    forall a | 0 <= a <= m && Unbroken(ts, up, a, m)
      ensures CountSign(ts, up, a, m) <= run'
    {
      if a <= n { assert Unbroken(ts, up, a, n); }
    }
    if HasSign(ts[n], !up) {
      assert Unbroken(ts, up, n + 1, n + 1) && CountSign(ts, up, n + 1, n + 1) == 0;
    } else {
      var a :| 0 <= a <= n && Unbroken(ts, up, a, n) && CountSign(ts, up, a, n) == run;
      assert Unbroken(ts, up, a, n + 1) && CountSign(ts, up, a, n + 1) == run';
    }
  }

  lemma {:induction false} StreakStep(ts: seq<real>, up: bool, n: nat, run: nat, best: nat)
    requires n < |ts| && IsLongestStreak(ts, up, n, best) && IsCurrentRun(ts, up, n + 1, run)
    ensures IsLongestStreak(ts, up, n + 1, if run > best then run else best)
  {
    if run > best {
      var a :| 0 <= a <= n + 1 && Unbroken(ts, up, a, n + 1) && CountSign(ts, up, a, n + 1) == run;
      assert 0 <= a <= n + 1 <= n + 1;
    }
  }

  method Streaks(trades: seq<real>) returns (maxWins: nat, maxLosses: nat)
    ensures IsLongestStreak(trades, true, |trades|, maxWins)
    ensures IsLongestStreak(trades, false, |trades|, maxLosses)
  {
    var cw, cl := 0, 0;
    maxWins, maxLosses := 0, 0;
    assert Unbroken(trades, true, 0, 0) && CountSign(trades, true, 0, 0) == 0;
    assert Unbroken(trades, false, 0, 0) && CountSign(trades, false, 0, 0) == 0;
    for i := 0 to |trades|
      invariant IsCurrentRun(trades, true, i, cw) && IsLongestStreak(trades, true, i, maxWins)
      invariant IsCurrentRun(trades, false, i, cl) && IsLongestStreak(trades, false, i, maxLosses)
    {
      var r := trades[i];
      ghost var wins, losses := cw, cl;
      if r > 0.0 {
        cw := cw + 1;
        cl := 0;
      } else if r < 0.0 {
        cl := cl + 1;
        cw := 0;
      }
      RunStep(trades, true, i, wins, cw);
      RunStep(trades, false, i, losses, cl);
      StreakStep(trades, true, i, cw, maxWins);
      StreakStep(trades, false, i, cl, maxLosses);
      maxWins := if cw > maxWins then cw else maxWins;
      maxLosses := if cl > maxLosses then cl else maxLosses;
    }
  }

  lemma {:induction false} CountAll(ts: seq<real>, up: bool, a: nat, b: nat)
    requires a <= b <= |ts|
    ensures (forall k :: a <= k < b ==> if up then ts[k] > 0.0 else ts[k] < 0.0) ==> CountSign(ts, up, a, b) == b - a
    ensures (forall k :: a <= k < b ==> if up then ts[k] <= 0.0 else ts[k] >= 0.0) ==> CountSign(ts, up, a, b) == 0
  {
    if a < b { CountAll(ts, up, a, b - 1); }
  }

  /** Nothing but wins (losses) is one streak of all of them; nothing but losses (wins) and flat trades is none. */
  lemma {:induction false} StreakOfOneSign(ts: seq<real>, up: bool, best: nat)
    requires IsLongestStreak(ts, up, |ts|, best)
    ensures (forall k :: 0 <= k < |ts| ==> if up then ts[k] > 0.0 else ts[k] < 0.0) ==> best == |ts|
    ensures (forall k :: 0 <= k < |ts| ==> if up then ts[k] <= 0.0 else ts[k] >= 0.0) ==> best == 0
  {
    var n := |ts|;
    var a, b :| 0 <= a <= b <= n && Unbroken(ts, up, a, b) && CountSign(ts, up, a, b) == best;
    CountAll(ts, up, a, b);
    CountAll(ts, up, 0, n);
    assert Unbroken(ts, up, 0, n) ==> CountSign(ts, up, 0, n) <= best;
  }

  lemma {:induction false} CountThree(ts: seq<real>, up: bool, a: nat, b: nat)
    requires a <= b <= |ts| == 3
    ensures CountSign(ts, up, a, b) == (if a <= 0 < b && HasSign(ts[0], up) then 1 else 0)
            + (if a <= 1 < b && HasSign(ts[1], up) then 1 else 0) + (if a <= 2 < b && HasSign(ts[2], up) then 1 else 0)
  {
    if a < b { CountThree(ts, up, a, b - 1); }
  }

  /** A flat trade ends no streak and joins none; a trade of the other sign ends it. */
  lemma {:induction false} StreakAcross(w: real, between: real, best: nat, up: bool)
    requires (if up then w > 0.0 else w < 0.0) && IsLongestStreak([w, between, w], up, 3, best)
    ensures between == 0.0 ==> best == 2
    ensures (if up then between < 0.0 else between > 0.0) ==> best == 1
  {
    var ts := [w, between, w];
    var a, b :| 0 <= a <= b <= 3 && Unbroken(ts, up, a, b) && CountSign(ts, up, a, b) == best;
    CountThree(ts, up, a, b);
    CountThree(ts, up, 0, 1);
    CountThree(ts, up, 0, 3);
    assert Unbroken(ts, up, 0, 1);
    assert between == 0.0 ==> Unbroken(ts, up, 0, 3);
  }

  // ---------------------------------------------------------------- the replay

  /** What the replay reads at a bar: whether the setup is the one tested, and the ATR it sizes by. */
  datatype Look = Look(matches: bool, atr: real)

  datatype Settings = Settings(direction: Side, atrStopMultiplier: real, rewardRisk: real)

  function StopOf(s: Settings, c: Candle, atr: real): real {
    if s.direction == Long then c.close - atr * s.atrStopMultiplier else c.close + atr * s.atrStopMultiplier
  }

  function TargetOf(s: Settings, c: Candle, atr: real): real {
    if s.direction == Long then c.close + atr * s.rewardRisk else c.close - atr * s.rewardRisk
  }

  function Gain(s: Settings, from: real, to: real): real { if s.direction == Long then to - from else from - to }

  predicate StopHit(s: Settings, c: Candle, stop: real) {
    if s.direction == Long then c.low <= stop else c.high >= stop
  }

  predicate TargetHit(s: Settings, c: Candle, target: real) {
    if s.direction == Long then c.high >= target else c.low <= target
  }

  /** The first of bars `lo..hi` to touch a level decides, stop first; None when none does. */
  function FirstHit(s: Settings, candles: seq<Candle>, stop: real, target: real, lo: nat, hi: nat): Option<bool>
    requires lo <= hi <= |candles|
    decreases hi - lo
  {
    if lo == hi then None
    else
      var c := candles[lo];
      if StopHit(s, c, stop) then Some(false)
      else if TargetHit(s, c, target) then Some(true)
      else FirstHit(s, candles, stop, target, lo + 1, hi)
  }

  const HOLD := 10

  /** The bars a trade opened at `i` may be held for end before this one. */
  function HeldUntil(candles: seq<Candle>, i: nat): nat
    requires i < |candles|
  {
    if i + HOLD + 1 <= |candles| then i + HOLD + 1 else |candles|
  }

  /** The trade opened at bar `i`: None when it is not the setup or risks nothing. */
  function TradeAt(s: Settings, candles: seq<Candle>, looks: seq<Look>, i: nat): Option<real>
    requires i < |candles| && |looks| == |candles|
  {
    var c := candles[i];
    var stop, target := StopOf(s, c, looks[i].atr), TargetOf(s, c, looks[i].atr);
    var risk := Abs(c.close - stop);
    if !looks[i].matches || risk <= 0.0 then None
    else
      var end := HeldUntil(candles, i);
      var hit := FirstHit(s, candles, stop, target, i + 1, end);
      var r := if hit == None then 0.0 else if hit.value then Gain(s, c.close, target) / risk else -1.0;
      // A walk that left r at zero exits at the last held close.
      Some(if r == 0.0 then Gain(s, c.close, candles[end - 1].close) / risk else r)
  }

  /** Bar `k` is the first of `lo..hi` to touch either level. */
  ghost predicate FirstTouch(s: Settings, candles: seq<Candle>, stop: real, target: real, lo: nat, hi: nat, k: int) {
    && lo <= k < hi <= |candles| && (StopHit(s, candles[k], stop) || TargetHit(s, candles[k], target))
    && forall j :: lo <= j < k ==> !StopHit(s, candles[j], stop) && !TargetHit(s, candles[j], target)
  }

  lemma {:induction false} FirstHitMeaning(s: Settings, candles: seq<Candle>, stop: real, target: real, lo: nat,
                                           hi: nat)
    requires lo <= hi <= |candles|
    ensures var hit := FirstHit(s, candles, stop, target, lo, hi);
            && (hit == None <==> forall j :: lo <= j < hi ==>
                !StopHit(s, candles[j], stop) && !TargetHit(s, candles[j], target))
            && (forall k :: FirstTouch(s, candles, stop, target, lo, hi, k) ==>
                hit == Some(!StopHit(s, candles[k], stop)))
    decreases hi - lo
  {
    if lo < hi { FirstHitMeaning(s, candles, stop, target, lo + 1, hi); }
  }

  lemma {:induction false} RatioOfMultiples(atr: real, reward: real, multiplier: real)
    requires atr > 0.0 && multiplier > 0.0
    ensures atr * multiplier > 0.0 && (atr * reward) / (atr * multiplier) == reward / multiplier
  {
    var ratio, whole := reward / multiplier, (atr * reward) / (atr * multiplier);
    assert ratio * multiplier == reward;
    assert atr * multiplier > 0.0;
    assert whole * (atr * multiplier) == atr * reward;
    assert (whole - ratio) * (atr * multiplier) == atr * reward - atr * (ratio * multiplier);
  }

  /** A trade's R by what was hit first, given the R of its target. */
  function ResultFor(hit: Option<bool>, targetR: real, closeR: real): real {
    var r := if hit == None then 0.0 else if hit.value then targetR else -1.0;
    if r == 0.0 then closeR else r
  }

  lemma {:induction false} TradeByHit(s: Settings, candles: seq<Candle>, looks: seq<Look>, i: nat)
    requires i < |candles| && |looks| == |candles| && looks[i].matches
    requires Abs(candles[i].close - StopOf(s, candles[i], looks[i].atr)) > 0.0
    ensures var c, end := candles[i], HeldUntil(candles, i);
            var stop, target := StopOf(s, c, looks[i].atr), TargetOf(s, c, looks[i].atr);
            var risk := Abs(c.close - stop);
            TradeAt(s, candles, looks, i)
            == Some(ResultFor(FirstHit(s, candles, stop, target, i + 1, end), Gain(s, c.close, target) / risk,
                              Gain(s, c.close, candles[end - 1].close) / risk))
  {
    hide StopOf, TargetOf, FirstHit, Gain, Abs;
  }

  lemma {:induction false} SettingsRatio(s: Settings, c: Candle, atr: real)
    requires atr > 0.0 && s.atrStopMultiplier > 0.0 && s.rewardRisk > 0.0
    ensures var stop, target := StopOf(s, c, atr), TargetOf(s, c, atr);
            && Abs(c.close - stop) > 0.0
            && Gain(s, c.close, target) / Abs(c.close - stop) == s.rewardRisk / s.atrStopMultiplier > 0.0
  {
    RatioOfMultiples(atr, s.rewardRisk, s.atrStopMultiplier);
    Positive(s.rewardRisk, s.atrStopMultiplier);
    var stop, target := StopOf(s, c, atr), TargetOf(s, c, atr);
    assert Abs(c.close - stop) == atr * s.atrStopMultiplier;
    assert Gain(s, c.close, target) == atr * s.rewardRisk;
  }

  /** With positive settings a matching bar always trades. The first bar held to touch a level decides: the stop
      at -1R even when it touches the target too, the target at exactly the ratio of the settings; untouched, the
      trade leaves at the last held close. */
  lemma {:induction false} TradeMeaning(s: Settings, candles: seq<Candle>, looks: seq<Look>, i: nat)
    requires i < |candles| && |looks| == |candles| && looks[i].matches && looks[i].atr > 0.0
    requires s.atrStopMultiplier > 0.0 && s.rewardRisk > 0.0
    ensures var c, end := candles[i], HeldUntil(candles, i);
            var stop, target := StopOf(s, c, looks[i].atr), TargetOf(s, c, looks[i].atr);
            var trade := TradeAt(s, candles, looks, i);
            && trade.Some?
            && (forall k :: FirstTouch(s, candles, stop, target, i + 1, end, k) ==>
                  trade.value == if StopHit(s, candles[k], stop) then -1.0 else s.rewardRisk / s.atrStopMultiplier)
            && ((forall j :: i + 1 <= j < end ==>
                 !StopHit(s, candles[j], stop) && !TargetHit(s, candles[j], target)) ==>
                  trade.value == Gain(s, c.close, candles[end - 1].close) / Abs(c.close - stop))
  {
    hide StopOf, TargetOf, FirstHit, Gain, Abs, TradeAt, StopHit, TargetHit;
    var c := candles[i];
    SettingsRatio(s, c, looks[i].atr);
    TradeByHit(s, candles, looks, i);
    FirstHitMeaning(s, candles, StopOf(s, c, looks[i].atr), TargetOf(s, c, looks[i].atr), i + 1, HeldUntil(candles, i));
  }

  /** Bar `c` leaves a trade entered at `entry` open: strictly inside `away` against it and `ahead` for it. */
  ghost predicate LeavesOpen(s: Settings, c: Candle, entry: real, away: real, ahead: real) {
    match s.direction
    case Long => entry - away < c.low && c.high < entry + ahead
    case Short => entry - ahead < c.low && c.high < entry + away
  }

  ghost predicate GoesAgainst(s: Settings, c: Candle, entry: real, away: real) {
    match s.direction case Long => c.low <= entry - away case Short => entry + away <= c.high
  }

  /** How far against the entry the stop lies, and how far ahead the target. */
  function Away(s: Settings, atr: real): real { atr * s.atrStopMultiplier }

  function Ahead(s: Settings, atr: real): real { atr * s.rewardRisk }

  lemma {:induction false} LevelsOnCandle(s: Settings, c: Candle, atr: real, bar: Candle)
    ensures var stop, target := StopOf(s, c, atr), TargetOf(s, c, atr);
            && (StopHit(s, bar, stop) <==> GoesAgainst(s, bar, c.close, Away(s, atr)))
            && (!StopHit(s, bar, stop) && !TargetHit(s, bar, target)
                <==> LeavesOpen(s, bar, c.close, Away(s, atr), Ahead(s, atr)))
  {}

  /** Bars `i + 1..k` leave the trade entered at bar `i` open. */
  ghost predicate OpenUntil(s: Settings, candles: seq<Candle>, i: nat, k: nat, atr: real) {
    && i < k <= |candles|
    && forall j :: i < j < k ==> LeavesOpen(s, candles[j], candles[i].close, Away(s, atr), Ahead(s, atr))
  }

  lemma {:induction false} OpenBars(s: Settings, candles: seq<Candle>, i: nat, k: nat, atr: real)
    requires OpenUntil(s, candles, i, k, atr)
    ensures var stop, target := StopOf(s, candles[i], atr), TargetOf(s, candles[i], atr);
            forall j :: i < j < k ==> !StopHit(s, candles[j], stop) && !TargetHit(s, candles[j], target)
  {
    var stop, target := StopOf(s, candles[i], atr), TargetOf(s, candles[i], atr);
    hide StopOf, TargetOf, StopHit, TargetHit, LeavesOpen, Away, Ahead;
    forall j | i < j < k ensures !StopHit(s, candles[j], stop) && !TargetHit(s, candles[j], target) {
      LevelsOnCandle(s, candles[i], atr, candles[j]);
    }
  }

  ghost predicate Trading(s: Settings, candles: seq<Candle>, looks: seq<Look>, i: nat) {
    && i < |candles| == |looks| && looks[i].matches && looks[i].atr > 0.0
    && s.atrStopMultiplier > 0.0 && s.rewardRisk > 0.0
  }

  /** The trade in candles: entered at the close of bar `i`, stopped `atr` times the stop multiplier away and paid
      `atr` times the ratio ahead by the first of the next ten bars to get there. */
  lemma {:induction false} TradeTouched(s: Settings, candles: seq<Candle>, looks: seq<Look>, i: nat, k: nat)
    requires Trading(s, candles, looks, i) && i < k <= i + 10 && k < |candles|
    requires OpenUntil(s, candles, i, k, looks[i].atr)
    ensures var entry, away, ahead := candles[i].close, Away(s, looks[i].atr), Ahead(s, looks[i].atr);
            && (GoesAgainst(s, candles[k], entry, away) ==> TradeAt(s, candles, looks, i) == Some(-1.0))
            && (!GoesAgainst(s, candles[k], entry, away) && !LeavesOpen(s, candles[k], entry, away, ahead) ==>
                  TradeAt(s, candles, looks, i) == Some(s.rewardRisk / s.atrStopMultiplier))
  {
    hide TradeAt, StopOf, TargetOf, StopHit, TargetHit, Away, Ahead, OpenUntil, LeavesOpen, GoesAgainst;
    var c, atr := candles[i], looks[i].atr;
    var stop, target := StopOf(s, c, atr), TargetOf(s, c, atr);
    TradeMeaning(s, candles, looks, i);
    OpenBars(s, candles, i, k, atr);
    LevelsOnCandle(s, c, atr, candles[k]);
    assert StopHit(s, candles[k], stop) || TargetHit(s, candles[k], target) ==>
        FirstTouch(s, candles, stop, target, i + 1, HeldUntil(candles, i), k);
  }

  /** Untouched through ten bars, or through all there are, it is left at the last close of them. */
  lemma {:induction false} TradeUntouched(s: Settings, candles: seq<Candle>, looks: seq<Look>, i: nat, k: nat)
    requires Trading(s, candles, looks, i) && (k == i + 11 || (k == |candles| && k <= i + 10))
    requires OpenUntil(s, candles, i, k, looks[i].atr)
    ensures var away := Away(s, looks[i].atr);
            && k <= |candles| && away > 0.0
            && TradeAt(s, candles, looks, i) == Some(GainOver(s, candles[i].close, candles[k - 1].close, away))
  {
    hide TradeAt, StopOf, TargetOf, StopHit, TargetHit, LeavesOpen, Away, Ahead;
    TradeMeaning(s, candles, looks, i);
    OpenBars(s, candles, i, k, looks[i].atr);
    RiskedAway(s, candles[i], looks[i].atr);
    assert k == HeldUntil(candles, i);
  }

  function GainOver(s: Settings, entry: real, exit: real, risk: real): real
    requires risk != 0.0
  {
    (match s.direction case Long => exit - entry case Short => entry - exit) / risk
  }

  lemma {:induction false} RiskedAway(s: Settings, c: Candle, atr: real)
    requires atr > 0.0 && s.atrStopMultiplier > 0.0
    ensures Abs(c.close - StopOf(s, c, atr)) == Away(s, atr) > 0.0
  {}

  lemma {:induction false} Positive(x: real, y: real)
    requires x > 0.0 && y > 0.0
    ensures x / y > 0.0
  {
    assert x / y * y == x;
  }

  /** The R of every trade opened at bars `55..n`, in order. */
  function Trades(s: Settings, candles: seq<Candle>, looks: seq<Look>, n: nat): seq<real>
    requires n <= |candles| && |looks| == |candles|
  {
    if n <= 55 then []
    else
      var t := TradeAt(s, candles, looks, n - 1);
      Trades(s, candles, looks, n - 1) + if t.Some? then [t.value] else []
  }

  /** The trades are those of the bars from the 56th on that trade, one each and in bar order. */
  lemma {:induction false} TradesInOrder(s: Settings, candles: seq<Candle>, looks: seq<Look>, n: nat)
    returns (at: seq<nat>)
    requires n <= |candles| && |looks| == |candles|
    ensures |at| == |Trades(s, candles, looks, n)|
    ensures forall j, k :: 0 <= j < k < |at| ==> at[j] < at[k]
    ensures forall i :: i in at <==> 55 <= i < n && TradeAt(s, candles, looks, i).Some?
    ensures forall j :: 0 <= j < |at| ==>
              at[j] < n && TradeAt(s, candles, looks, at[j]) == Some(Trades(s, candles, looks, n)[j])
  {
    hide TradeAt;
    if n <= 55 {
      at := [];
    } else {
      var init := TradesInOrder(s, candles, looks, n - 1);
      at := init + if TradeAt(s, candles, looks, n - 1).Some? then [n - 1] else [];
      forall j | 0 <= j < |init| ensures init[j] < n - 1 { assert init[j] in init; }
    }
  }

  function Rounded(rs: seq<real>): seq<real> {
    if |rs| == 0 then [] else Rounded(rs[..|rs| - 1]) + [Round2(rs[|rs| - 1])]
  }

  method TradeR(s: Settings, candles: seq<Candle>, i: nat, stop: real, target: real, risk: real) returns (r: real)
    requires i < |candles| && risk > 0.0
    ensures var end := HeldUntil(candles, i);
            var hit := FirstHit(s, candles, stop, target, i + 1, end);
            r == if hit == None then 0.0 else if hit.value then Gain(s, candles[i].close, target) / risk else -1.0
  {
    r := 0.0;
    var c := candles[i];
    var end := HeldUntil(candles, i);
    var j := i + 1;
    while j < end
      invariant i + 1 <= j <= end
      invariant r == 0.0
      invariant FirstHit(s, candles, stop, target, i + 1, end) == FirstHit(s, candles, stop, target, j, end)
    {
      if s.direction == Long {
        if candles[j].low <= stop { return -1.0; }
        if candles[j].high >= target { return (target - c.close) / risk; }
      } else {
        if candles[j].high >= stop { return -1.0; }
        if candles[j].low <= target { return (c.close - target) / risk; }
      }
      j := j + 1;
    }
  }

  /** The running totals after the trades `all`. */
  ghost predicate Books(all: seq<real>, trades: seq<real>, equity: real, peak: real, maxDrawdown: real) {
    && trades == Rounded(all) && equity == Curve(all)[|all|]
    && IsPeak(Curve(all), peak) && IsMaxDrawdown(Curve(all), maxDrawdown)
  }

  method BookTrade(ghost all: seq<real>, trades: seq<real>, equity: real, peak: real, maxDrawdown: real, r: real)
    returns (trades': seq<real>, equity': real, peak': real, maxDrawdown': real)
    requires Books(all, trades, equity, peak, maxDrawdown)
    ensures Books(all + [r], trades', equity', peak', maxDrawdown')
  {
    hide IsPeak, IsMaxDrawdown, Round2;
    ghost var after := all + [r];
    assert after[..|all|] == all;
    DrawdownStep(Curve(all), equity + r, peak, maxDrawdown);
    trades' := trades + [Round2(r)];
    equity' := equity + r;
    peak' := Max(peak, equity');
    maxDrawdown' := Max(maxDrawdown, peak' - equity');
  }

  method OpenTrade(s: Settings, candles: seq<Candle>, looks: seq<Look>, i: nat) returns (t: Option<real>)
    requires i < |candles| && |looks| == |candles|
    ensures t == TradeAt(s, candles, looks, i)
  {
    var c := candles[i];
    if !looks[i].matches {
      return None;
    }
    var atr := looks[i].atr;
    var stop, target := StopOf(s, c, atr), TargetOf(s, c, atr);
    var risk := Abs(c.close - stop);
    if risk <= 0.0 {
      return None;
    }
    var r := TradeR(s, candles, i, stop, target, risk);
    if r == 0.0 {
      var exitClose := candles[if i + HOLD < |candles| - 1 then i + HOLD else |candles| - 1].close;
      r := if s.direction == Long then (exitClose - c.close) / risk else (c.close - exitClose) / risk;
    }
    return Some(r);
  }

  method Replay(s: Settings, candles: seq<Candle>, looks: seq<Look>) returns (trades: seq<real>, maxDrawdown: real)
    requires |looks| == |candles|
    ensures |candles| >= 60 ==> var all := Trades(s, candles, looks, |candles| - 5);
              trades == Rounded(all) && IsMaxDrawdown(Curve(all), maxDrawdown)
    ensures |candles| < 60 ==> trades == [] && maxDrawdown == 0.0
  {
    trades := [];
    var equity, peak := 0.0, 0.0;
    maxDrawdown := 0.0;
    if |candles| < 60 {
      return;
    }
    ghost var all: seq<real> := [];
    assert Curve(all)[0] == 0.0 && Curve(all)[0] - Curve(all)[0] == 0.0;
    for i := 55 to |candles| - 5
      invariant all == Trades(s, candles, looks, i)
      invariant Books(all, trades, equity, peak, maxDrawdown)
    {
      var t := OpenTrade(s, candles, looks, i);
      if t.Some? {
        trades, equity, peak, maxDrawdown := BookTrade(all, trades, equity, peak, maxDrawdown, t.value);
        all := all + [t.value];
      }
    }
  }

  /** The replay's one pass: the trades it lists, the largest equity fall among them, and the longest
      streaks over the rounded list. */
  method RunBacktest(s: Settings, candles: seq<Candle>, looks: seq<Look>)
    returns (trades: seq<real>, maxDrawdown: real, consecutiveWins: nat, consecutiveLosses: nat)
    requires |looks| == |candles|
    ensures |candles| >= 60 ==> var all := Trades(s, candles, looks, |candles| - 5);
              trades == Rounded(all) && IsMaxDrawdown(Curve(all), maxDrawdown)
    ensures |candles| < 60 ==> trades == [] && maxDrawdown == 0.0
    ensures IsLongestStreak(trades, true, |trades|, consecutiveWins)
    ensures IsLongestStreak(trades, false, |trades|, consecutiveLosses)
  {
    trades, maxDrawdown := Replay(s, candles, looks);
    consecutiveWins, consecutiveLosses := Streaks(trades);
  }
}
