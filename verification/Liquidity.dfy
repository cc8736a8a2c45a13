/** Liquidity pools and sweeps (engine/smc/liquidity.py). Pools hold the level they derive from; a
    pool handed to another function is named by its place in the list. */
module Liquidity {
  import opened Types
  import opened Structure
  import Sorting

  datatype LiquiditySide = Bsl | Ssl

  datatype Pool = Pool(side: LiquiditySide, price: real, level: EqualLevel, intact: bool, confidence: int,
                       lastTouch: int)

  // ---------------------------------------------------------------- pools

  function SideOf(kind: EqualKind): LiquiditySide { if kind == Eqh then Bsl else Ssl }

  function KindOf(side: LiquiditySide): Kind { if side == Bsl then High else Low }

  function LastMember(level: EqualLevel): Touch {
    if |level.run.later| == 0 then level.run.anchor else level.run.later[|level.run.later| - 1]
  }

  /** A later swing of the level's kind traded strictly beyond its price. */
  ghost predicate Taken(swings: seq<Swing>, level: EqualLevel) {
    exists j :: LastMember(level).index < j < |swings|
      && swings[j].kind == KindOf(SideOf(level.kind)) && Outside(swings[j].kind, swings[j].price, level.price)
  }

  function Clamp01(x: real): real { Min(1.0, Max(0.0, x)) }

  function TouchesScore(touches: int): real { Clamp01(0.5 + (touches - 2) as real * 0.35) }

  function Spread(anchor: real, later: seq<Touch>): (spread: (real, real))
    ensures spread.0 <= anchor <= spread.1
  {
    if |later| == 0 then (anchor, anchor)
    else
      var rest, price := Spread(anchor, later[..|later| - 1]), later[|later| - 1].price;
      (Min(rest.0, price), Max(rest.1, price))
  }

  /** The source divides by the anchor price; a zero anchor would raise there and scores 0 here. */
  function TightnessScore(level: EqualLevel, tolerance: real): real {
    if tolerance <= 0.0 then 1.0
    else
      var anchor := level.run.anchor.price;
      var spread := Spread(anchor, level.run.later);
      if anchor == 0.0 then 0.0 else Clamp01(1.0 - (spread.1 - spread.0) / anchor / (2.0 * tolerance))
  }

  function RecencyScore(lastIndex: int, count: nat): real {
    if count == 0 then 0.0 else Clamp01((lastIndex + 1) as real / count as real)
  }

  function Confidence(level: EqualLevel, count: nat, tolerance: real): (c: int)
    ensures 0 <= c <= 100
  {
    var t, g, r := TouchesScore(1 + |level.run.later|), TightnessScore(level, tolerance),
      RecencyScore(LastMember(level).index, count);
    (100.0 * (0.4 * t + 0.25 * g + 0.35 * r) + 0.5).Floor
  }

  /** A high above the highs' line, a low below the lows'. */
  ghost predicate TradesBeyond(s: Swing, level: EqualLevel) {
    match level.kind
    case Eqh => s.kind == High && s.price > level.price
    case Eql => s.kind == Low && s.price < level.price
  }

  /** Taken means a later swing trades beyond. */
  lemma {:induction false} TakenOnSwings(swings: seq<Swing>, level: EqualLevel)
    ensures Taken(swings, level)
            <==> exists j :: LastMember(level).index < j < |swings| && TradesBeyond(swings[j], level)
  {
    if Taken(swings, level) {
      var j :| LastMember(level).index < j < |swings|
               && swings[j].kind == KindOf(SideOf(level.kind)) && Outside(swings[j].kind, swings[j].price, level.price);
      assert TradesBeyond(swings[j], level);
    }
  }

  /** The spread is from the lowest member price to the highest. */
  lemma {:induction false} SpreadIsRange(anchor: real, later: seq<Touch>)
    ensures var spread := Spread(anchor, later);
            && spread.0 <= anchor <= spread.1 && (forall t :: t in later ==> spread.0 <= t.price <= spread.1)
            && (spread.0 == anchor || exists t :: t in later && t.price == spread.0)
            && (spread.1 == anchor || exists t :: t in later && t.price == spread.1)
  {
    if |later| > 0 {
      SpreadIsRange(anchor, later[..|later| - 1]);
      assert later == later[..|later| - 1] + [later[|later| - 1]];
    }
  }

  /** What raises confidence: more touches, members closer together for their price, and a later last touch. */
  lemma {:induction false} ConfidenceFollows(a: EqualLevel, b: EqualLevel, count: nat, tolerance: real)
    requires tolerance > 0.0 && a.run.anchor.price == b.run.anchor.price > 0.0 && count > 0
    requires |a.run.later| <= |b.run.later| && LastMember(a).index <= LastMember(b).index
    requires var x, y := Spread(a.run.anchor.price, a.run.later), Spread(b.run.anchor.price, b.run.later);
             y.1 - y.0 <= x.1 - x.0
    ensures Confidence(a, count, tolerance) <= Confidence(b, count, tolerance)
  {
    var anchor := a.run.anchor.price;
    var x, y := Spread(anchor, a.run.later), Spread(anchor, b.run.later);
    DivMonotone(y.1 - y.0, x.1 - x.0, anchor);
    DivMonotone((y.1 - y.0) / anchor, (x.1 - x.0) / anchor, 2.0 * tolerance);
    DivMonotone((LastMember(a).index + 1) as real, (LastMember(b).index + 1) as real, count as real);
    hide Spread;
    assert TouchesScore(1 + |a.run.later|) <= TouchesScore(1 + |b.run.later|);
    assert TightnessScore(a, tolerance) <= TightnessScore(b, tolerance);
    assert RecencyScore(LastMember(a).index, count) <= RecencyScore(LastMember(b).index, count);
    hide TouchesScore, TightnessScore, RecencyScore;
  }

  /** Touches at one price, the last of them the last swing: four are certain, three ninety-four, two eighty. */
  lemma {:induction false} ConfidenceOfEqual(level: EqualLevel, count: nat, tolerance: real)
    requires tolerance > 0.0 && level.run.anchor.price > 0.0
    requires forall t :: t in level.run.later ==> t.price == level.run.anchor.price
    requires count > 0 && LastMember(level).index == count - 1
    ensures |level.run.later| >= 3 ==> Confidence(level, count, tolerance) == 100
    ensures |level.run.later| == 2 ==> Confidence(level, count, tolerance) == 94
    ensures |level.run.later| == 1 ==> Confidence(level, count, tolerance) == 80
  {
    var anchor := level.run.anchor.price;
    SpreadIsRange(anchor, level.run.later);
    var spread := Spread(anchor, level.run.later);
    assert spread.0 == anchor == spread.1;
    assert 0.0 / anchor == 0.0 && 0.0 / (2.0 * tolerance) == 0.0;
    assert (LastMember(level).index + 1) as real / count as real == 1.0;
    hide Spread;
  }

  method PoolFrom(swings: seq<Swing>, level: EqualLevel, tolerance: real) returns (pool: Pool)
    requires LastMember(level).index < |swings|
    ensures pool == Pool(SideOf(level.kind), level.price, level, !Taken(swings, level),
                         Confidence(level, |swings|, tolerance), swings[LastMember(level).index].time)
  {
    var side, last := SideOf(level.kind), LastMember(level).index;
    var intact := true;
    var j := last + 1;
    while j < |swings|
      invariant last < j <= |swings|
      invariant intact ==> forall k :: last < k < j ==>
                  swings[k].kind != KindOf(side) || !Outside(swings[k].kind, swings[k].price, level.price)
      invariant !intact ==> Taken(swings, level)
    {
      if swings[j].kind == KindOf(side)
         && (if side == Bsl then swings[j].price > level.price else swings[j].price < level.price) {
        intact := false;
        break;
      }
      j := j + 1;
    }
    pool := Pool(side, level.price, level, intact, Confidence(level, |swings|, tolerance), swings[last].time);
  }

  // ---------------------------------------------------------------- sweeps

  /** `pool` is the place of the swept pool in the list it came from. */
  datatype Sweep = Sweep(side: LiquiditySide, pool: nat, price: real, time: int, extreme: real, close: real)

  predicate Penetrates(pool: Pool, c: Candle) {
    c.time > pool.lastTouch && if pool.side == Bsl then c.high > pool.price else c.low < pool.price
  }

  predicate Rejected(pool: Pool, c: Candle) {
    if pool.side == Bsl then c.close <= pool.price else c.close >= pool.price
  }

  /** The first candle after the completing touch to trade through the level decides the pool. */
  function Decider(pool: Pool, candles: seq<Candle>): Option<Candle> {
    if |candles| == 0 then None
    else if Penetrates(pool, candles[0]) then Some(candles[0])
    else Decider(pool, candles[1..])
  }

  function SweepOn(pool: Pool, index: nat, c: Candle): Sweep {
    Sweep(pool.side, index, pool.price, c.time, if pool.side == Bsl then c.high else c.low, c.close)
  }

  /** A pool's outcome: a sweep if the deciding candle closed back, nothing otherwise. */
  function SweepOf(pool: Pool, index: nat, candles: seq<Candle>): Option<Sweep> {
    match Decider(pool, candles)
    case None => None
    case Some(c) => if Rejected(pool, c) then Some(SweepOn(pool, index, c)) else None
  }

  /** In pool order, at most one sweep per pool. */
  function RawSweeps(pools: seq<Pool>, candles: seq<Candle>): seq<Sweep> {
    if |pools| == 0 then []
    else
      var last := SweepOf(pools[|pools| - 1], |pools| - 1, candles);
      RawSweeps(pools[..|pools| - 1], candles) + if last.Some? then [last.value] else []
  }

  predicate SweepOrder(a: Sweep, b: Sweep) {
    || a.time < b.time
    || (a.time == b.time && (a.price < b.price || (a.price == b.price && (a.side == Bsl || b.side == Ssl))))
  }

  function Sweeps(pools: seq<Pool>, candles: seq<Candle>): seq<Sweep> {
    Sorting.Sort(RawSweeps(pools, candles), SweepOrder)
  }

  method DetectLiquiditySweeps(pools: seq<Pool>, candles: seq<Candle>) returns (sweeps: seq<Sweep>)
    ensures sweeps == Sweeps(pools, candles)
  {
    sweeps := [];
    for p := 0 to |pools|
      invariant sweeps == RawSweeps(pools[..p], candles)
    {
      var pool := pools[p];
      ghost var before := sweeps;
      var i := 0;
      while i < |candles|
        invariant 0 <= i <= |candles|
        invariant Decider(pool, candles) == Decider(pool, candles[i..])
        invariant sweeps == before
      {
        var c := candles[i];
        assert candles[i..][1..] == candles[i + 1..];
        i := i + 1;
        if c.time <= pool.lastTouch {
          continue;
        }
        if (if pool.side == Bsl then c.high > pool.price else c.low < pool.price) {
          if (if pool.side == Bsl then c.close <= pool.price else c.close >= pool.price) {
            sweeps := sweeps
            + [Sweep(pool.side, p, pool.price, c.time, if pool.side == Bsl then c.high else c.low, c.close)];
          }
          break;
        }
      }
      assert pools[..p + 1][..p] == pools[..p];
    }
    assert pools[..|pools|] == pools;
    sweeps := Sorting.Sort(sweeps, SweepOrder);
  }
}
