/** Holding horizons (engine/smc/hysteresis.py, engine/smc/mock_candles.py) and the bar windows the
    settlement paths cut. Times of bars are whole seconds; adoption times are milliseconds. */
module Horizons {
  import opened Types

  datatype TradingIntent = Scalp | Intraday | SwingTrade | Position

  datatype Timeframe = M15 | M30 | H1 | H4 | D1 | W1

  function MaxHoldBars(intent: TradingIntent): (bars: nat)
    ensures bars > 0
  {
    match intent
    case Scalp => 16
    case Intraday => 24
    case SwingTrade => 42
    case Position => 30
  }

  function StepSeconds(timeframe: Timeframe): (seconds: nat)
    ensures seconds > 0
  {
    match timeframe
    case M15 => 900
    case M30 => 1800
    case H1 => 3600
    case H4 => 14400
    case D1 => 86400
    case W1 => 604800
  }

  /** The bars that open at or after `ms`; "after adoption" is `adopted + 1`. */
  function Since(bars: seq<Candle>, ms: int): seq<Candle> {
    if |bars| == 0 then []
    else (if bars[0].time * 1000 >= ms then [bars[0]] else []) + Since(bars[1..], ms)
  }

  function Take<T>(s: seq<T>, n: nat): seq<T> { if n <= |s| then s[..n] else s }

  lemma {:induction false} SinceConcat(a: seq<Candle>, b: seq<Candle>, ms: int)
    ensures Since(a + b, ms) == Since(a, ms) + Since(b, ms)
  {
    if |a| == 0 {
      assert a + b == b;
    } else {
      SinceConcat(a[1..], b, ms);
      assert (a + b)[0] == a[0] && (a + b)[1..] == a[1..] + b;
      var head := if a[0].time * 1000 >= ms then [a[0]] else [];
      assert head + (Since(a[1..], ms) + Since(b, ms)) == (head + Since(a[1..], ms)) + Since(b, ms);
    }
  }

  lemma {:induction false} TakePrefix<T>(a: seq<T>, b: seq<T>, n: nat)
    ensures Take(a, n) <= Take(a + b, n)
    ensures |Take(a, n)| >= n ==> Take(a + b, n) == Take(a, n)
  {}

  /** Bars wholly before the cut drop out, so a window may start anywhere before it. */
  lemma {:induction false} SinceSkips(a: seq<Candle>, b: seq<Candle>, ms: int)
    requires forall c :: c in a ==> c.time * 1000 < ms
    ensures Since(a + b, ms) == Since(b, ms)
  {
    if |a| == 0 {
      assert a + b == b;
    } else {
      SinceSkips(a[1..], b, ms);
      assert (a + b)[1..] == a[1..] + b && a[0] in a;
    }
  }

  /** On an ascending list the cut keeps exactly a suffix: everything from the first bar not before it. */
  lemma {:induction false} SinceIsSuffix(bars: seq<Candle>, ms: int, k: nat)
    requires Ascending(bars) && k <= |bars|
    requires k > 0 ==> bars[k - 1].time * 1000 < ms
    requires k < |bars| ==> ms <= bars[k].time * 1000
    ensures Since(bars, ms) == bars[k..]
  {
    forall c | c in bars[..k] ensures c.time * 1000 < ms {
      var i :| 0 <= i < k && bars[i] == c;
      assert i < k - 1 ==> bars[i].time < bars[k - 1].time;
    }
    assert bars == bars[..k] + bars[k..];
    SinceSkips(bars[..k], bars[k..], ms);
    SinceKeeps(bars[k..], ms);
  }

  lemma {:induction false} SinceKeeps(bars: seq<Candle>, ms: int)
    requires Ascending(bars) && (|bars| > 0 ==> ms <= bars[0].time * 1000)
    ensures Since(bars, ms) == bars
  {
    if |bars| > 0 {
      assert Ascending(bars[1..]) by {
        forall i, j | 0 <= i < j < |bars| - 1 ensures bars[1..][i].time < bars[1..][j].time {
          assert bars[i + 1].time < bars[j + 1].time;
        }
      }
      assert |bars| > 1 ==> bars[0].time < bars[1].time;
      SinceKeeps(bars[1..], ms);
      assert bars == [bars[0]] + bars[1..];
    }
  }

  lemma {:induction false} SinceMember(bars: seq<Candle>, ms: int, c: Candle)
    requires c in Since(bars, ms)
    ensures c in bars && c.time * 1000 >= ms
  {
    if bars[0].time * 1000 < ms || c != bars[0] { SinceMember(bars[1..], ms, c); }
  }

  /** Cut at one of its own bars, an ascending window starts with that bar. */
  lemma {:induction false} SinceStartsAt(bars: seq<Candle>, c: Candle)
    requires Ascending(bars) && c in bars
    ensures |Since(bars, c.time * 1000)| > 0 && Since(bars, c.time * 1000)[0] == c
  {
    if bars[0] != c {
      assert c in bars[1..];
      var k :| 0 <= k < |bars| && bars[k] == c;
      assert bars[0].time < bars[k].time;
      SinceStartsAt(bars[1..], c);
    }
  }
}
