/** Exactly which sweeps outlive new pivots and candles (engine/smc/quant.py, engine/smc/liquidity.py): first for one
    extension, then over all futures. */
module SweepFutures {
  import opened Types
  import opened Structure
  import opened Liquidity
  import opened LiquidityFacts
  import opened SweepLife
  import StructureFacts
  import Sorting

  // ---------------------------------------------------------------- one extension

  predicate TradesThrough(pool: Pool, c: Candle) {
    if pool.side == Bsl then c.high > pool.price else c.low < pool.price
  }

  /** Nothing traded through the line after `y`'s completing touch and up to `x`'s. */
  ghost predicate QuietBetween(x: Pool, y: Pool, candles: seq<Candle>) {
    forall c :: c in candles && y.lastTouch < c.time <= x.lastTouch ==> !TradesThrough(y, c)
  }

  /** The decider is the earliest candle that penetrates the pool. */
  ghost predicate EarliestThrough(pool: Pool, candles: seq<Candle>, d: Candle) {
    && d in candles && Penetrates(pool, d)
    && forall c :: c in candles && Penetrates(pool, c) ==> d.time <= c.time
  }

  lemma {:induction false} DeciderIsEarliest(pool: Pool, candles: seq<Candle>)
    requires Ascending(candles)
    ensures Decider(pool, candles).Some? ==> EarliestThrough(pool, candles, Decider(pool, candles).value)
    ensures Decider(pool, candles).None? ==> forall c :: c in candles ==> !Penetrates(pool, c)
  {
    if |candles| > 0 {
      var head, rest := candles[0], candles[1..];
      assert candles == [head] + rest;
      LaterRest(head, rest);
      hide Ascending, Penetrates;
      DeciderIsEarliest(pool, rest);
    }
  }

  lemma {:induction false} LaterRest(head: Candle, rest: seq<Candle>)
    requires Ascending([head] + rest)
    ensures Ascending(rest) && forall c :: c in rest ==> head.time < c.time
  {
    var all := [head] + rest;
    forall i, j | 0 <= i < j < |rest| ensures rest[i].time < rest[j].time {
      assert all[i + 1].time < all[j + 1].time;
    }
    forall c | c in rest ensures head.time < c.time {
      var k :| 0 <= k < |rest| && rest[k] == c;
      assert all[0].time < all[k + 1].time;
    }
  }

  lemma {:induction false} OneCandleATime(candles: seq<Candle>, c: Candle, d: Candle)
    requires Ascending(candles) && c in candles && d in candles && c.time == d.time
    ensures c == d
  {
    var i :| 0 <= i < |candles| && candles[i] == c;
    var j :| 0 <= j < |candles| && candles[j] == d;
    assert i < j ==> candles[i].time < candles[j].time;
    assert j < i ==> candles[j].time < candles[i].time;
  }

  lemma {:induction false} DeciderIs(pool: Pool, candles: seq<Candle>, d: Candle)
    requires Ascending(candles)
    ensures Decider(pool, candles) == Some(d) <==> EarliestThrough(pool, candles, d)
  {
    DeciderIsEarliest(pool, candles);
    hide Decider, Penetrates;
    if EarliestThrough(pool, candles, d) && Decider(pool, candles).Some? {
      OneCandleATime(candles, d, Decider(pool, candles).value);
    }
  }

  /** For one recomputed pool `y` of the swept pool's side: the sweep stands exactly when the line is where it was,
      its completing touch is still before the sweeping bar, and nothing that the old touch covered traded
      through. The last is idle unless the completing touch moved back. */
  lemma {:induction false} SweepStandsIff(x: Pool, y: Pool, k: nat, k': nat, a: seq<Candle>, b: seq<Candle>, s: Sweep)
    requires x.side == y.side && Ascending(a + b) && SweepOf(x, k, a) == Some(s)
    ensures SweepOf(y, k', a + b) == Some(s.(pool := k'))
            <==> y.price == x.price && y.lastTouch < s.time && QuietBetween(x, y, a)
  {
    var all, c := a + b, Decider(x, a).value;
    DeciderMember(x, a);
    DeciderConcat(x, a, b);
    DeciderIs(x, all, c);
    DeciderIs(y, all, c);
    if y.price == x.price && y.lastTouch < s.time && QuietBetween(x, y, a) {
      forall d | d in all && Penetrates(y, d) ensures c.time <= d.time {
        if d.time <= x.lastTouch { BeforeTheRest(a, b, c, d); } else { assert Penetrates(x, d); }
      }
    }
    if SweepOf(y, k', all) == Some(s.(pool := k')) {
      var d := Decider(y, all).value;
      DeciderIs(y, all, d);
      OneCandleATime(all, c, d);
      forall e | e in a && y.lastTouch < e.time <= x.lastTouch ensures !TradesThrough(y, e) {
        assert e in all;
      }
    }
  }

  lemma {:induction false} BeforeTheRest(a: seq<Candle>, b: seq<Candle>, c: Candle, d: Candle)
    requires Ascending(a + b) && c in a && d in a + b && d.time <= c.time
    ensures d in a
  {
    var i :| 0 <= i < |a| && a[i] == c;
    assert (a + b)[i] == c;
    forall e | e in b ensures c.time < e.time {
      var m :| 0 <= m < |b| && b[m] == e;
      assert (a + b)[|a| + m] == e;
    }
  }

  /** The same over whole sweep lists, with the pools recomputed on the way. */
  lemma {:induction false} ListedSweepStandsIff(pools: seq<Pool>, pools': seq<Pool>, k': nat, a: seq<Candle>,
                                                b: seq<Candle>, s: Sweep)
    requires Ascending(a + b) && s in Sweeps(pools, a) && s.pool < |pools| && k' < |pools'|
    requires pools[s.pool].side == pools'[k'].side
    ensures var x, y := pools[s.pool], pools'[k'];
            s.(pool := k') in Sweeps(pools', a + b)
            <==> y.price == x.price && y.lastTouch < s.time && QuietBetween(x, y, a)
  {
    OneSweepPerPool(pools, a);
    OneSweepPerPool(pools', a + b);
    hide SweepOf, QuietBetween;
    SweepStandsIff(pools[s.pool], pools'[k'], s.pool, k', a, b, s);
  }

  // ---------------------------------------------------------------- an unsettled run can be rejoined

  /** Anchors come in leg order, so an anchor names its run. */
  ghost predicate AnchorsAscend(runs: seq<Run>, n: nat) {
    && (forall r :: 0 <= r < |runs| ==> runs[r].anchor.index < n)
    && (forall q, r :: 0 <= q < r < |runs| ==> runs[q].anchor.index < runs[r].anchor.index)
  }

  lemma {:induction false} RunAnchorsAscend(legs: seq<Pivot>, tolerance: real, kind: Kind, n: nat)
    requires n <= |legs|
    ensures AnchorsAscend(Runs(legs, tolerance, kind, n), n)
  {
    if n > 0 { RunAnchorsAscend(legs, tolerance, kind, n - 1); }
  }

  /** Leg `n` arrives within tolerance of the open run's anchor. */
  lemma {:induction false} OpenRunGrows(legs: seq<Pivot>, tolerance: real, kind: Kind, n: nat)
    requires n < |legs| && legs[n].kind == kind
    requires var runs := Runs(legs, tolerance, kind, n);
             |runs| > 0 && Near(legs[n].price, runs[|runs| - 1].anchor.price, tolerance)
    ensures var runs, after := Runs(legs, tolerance, kind, n), Runs(legs, tolerance, kind, n + 1);
            var m := |runs| - 1;
            |after| == m + 1 && after[m] == Run(runs[m].anchor, runs[m].later + [Touch(n, legs[n].price)])
  {}

  /** The open run is `run` with one more touch, at its anchor's price and no earlier than `time`: the last leg. */
  ghost predicate Rejoined(legs: seq<Pivot>, tolerance: real, kind: Kind, run: Run, time: int) {
    var n, runs := |legs|, Runs(legs, tolerance, kind, |legs|);
    && n > 0 && |runs| > 0 && legs[n - 1].time >= time
    && runs[|runs| - 1] == Run(run.anchor, run.later + [Touch(n - 1, run.anchor.price)])
  }

  predicate NotBefore(q: seq<Pivot>, time: int) { forall x :: x in q ==> x.time >= time }

  function OtherKind(kind: Kind): Kind { if kind == High then Low else High }

  /** The last leg is of the other kind: one retest of the anchor joins the open run. */
  lemma {:induction false} RetestJoins(p: seq<Pivot>, tolerance: real, kind: Kind, run: Run, time: int)
    requires var legs := Legs(p); var runs := Runs(legs, tolerance, kind, |legs|);
             && |legs| > 0 && legs[|legs| - 1].kind != kind && |runs| > 0 && runs[|runs| - 1] == run
    requires Near(run.anchor.price, run.anchor.price, tolerance)
    ensures Rejoined(Legs(p + [Pivot(time, run.anchor.price, kind)]), tolerance, kind, run, time)
  {
    hide Legs, Near;
    var x, legs := Pivot(time, run.anchor.price, kind), Legs(p);
    LegsSnoc(p, x);
    StructureFacts.RunsLocal(legs, legs + [x], tolerance, kind, |legs|);
    hide Runs;
    OpenRunGrows(legs + [x], tolerance, kind, |legs|);
  }

  /** The last leg is a member: a leg the other way first, then the retest. */
  lemma {:induction false} PullbackThenRetestJoins(p: seq<Pivot>, tolerance: real, kind: Kind, run: Run, time: int)
    requires var legs := Legs(p); var runs := Runs(legs, tolerance, kind, |legs|);
             && |legs| > 0 && legs[|legs| - 1].kind == kind && |runs| > 0 && runs[|runs| - 1] == run
    requires Near(run.anchor.price, run.anchor.price, tolerance)
    ensures var pullback := Pivot(time, run.anchor.price, OtherKind(kind));
            Rejoined(Legs(p + [pullback, Pivot(time + 1, run.anchor.price, kind)]), tolerance, kind, run, time)
  {
    hide Legs, Near;
    var legs, y, x := Legs(p), Pivot(time, run.anchor.price, OtherKind(kind)), Pivot(time + 1, run.anchor.price, kind);
    LegsSnoc(p, y);
    assert Legs(p + [y]) == legs + [y];
    StructureFacts.RunsLocal(legs, legs + [y], tolerance, kind, |legs|);
    assert Runs(legs + [y], tolerance, kind, |legs| + 1) == Runs(legs, tolerance, kind, |legs|);
    hide Runs;
    RetestJoins(p + [y], tolerance, kind, run, time + 1);
    assert p + [y] + [x] == p + [y, x];
  }

  /** The last leg closed the run from the inward side and is still moving: it can move out to the anchor. */
  lemma {:induction false} LastLegMovesIn(p: seq<Pivot>, tolerance: real, kind: Kind, run: Run, time: int)
    requires var legs := Legs(p);
             && |legs| > 0 && legs[|legs| - 1].kind == kind
             && Outside(kind, run.anchor.price, legs[|legs| - 1].price)
             && var runs := Runs(legs, tolerance, kind, |legs| - 1); |runs| > 0 && runs[|runs| - 1] == run
    requires Near(run.anchor.price, run.anchor.price, tolerance)
    ensures Rejoined(Legs(p + [Pivot(time, run.anchor.price, kind)]), tolerance, kind, run, time)
  {
    hide Legs, Near;
    var x, legs := Pivot(time, run.anchor.price, kind), Legs(p);
    var m := |legs| - 1;
    LegsSnoc(p, x);
    StructureFacts.RunsLocal(legs, legs[m := x], tolerance, kind, m);
    hide Runs;
    OpenRunGrows(legs[m := x], tolerance, kind, m);
  }

  // ---------------------------------------------------------------- what unsettled means

  /** The level's run among the runs, with everything near its anchor. */
  lemma {:induction false} LevelRun(legs: seq<Pivot>, tolerance: real, kind: Kind, level: EqualLevel) returns (r: nat)
    requires level in Levels(kind, Runs(legs, tolerance, kind, |legs|))
    ensures var runs := Runs(legs, tolerance, kind, |legs|);
            r < |runs| && runs[r] == level.run && LevelOf(kind, runs[r]) == [level]
    ensures var anchor := level.run.anchor.price;
            && Near(anchor, anchor, tolerance) && Near(level.price, anchor, tolerance)
            && !Outside(kind, anchor, level.price)
  {
    var runs := Runs(legs, tolerance, kind, |legs|);
    LevelsFromRuns(kind, runs, level);
    r :| 0 <= r < |runs| && LevelOf(kind, runs[r]) == [level];
    hide Levels, Runs, Near;
    StructureFacts.RunsAreMaximal(legs, tolerance, kind, |legs|);
    OutermostIsNear(kind, runs[r], tolerance);
  }

  lemma {:induction false} OutermostIsNear(kind: Kind, run: Run, tolerance: real)
    requires StructureFacts.NearAnchor(run, tolerance) && |run.later| > 0
    ensures var anchor, price := run.anchor.price, Outermost(kind, run.anchor.price, run.later);
            && Near(anchor, anchor, tolerance) && Near(price, anchor, tolerance) && !Outside(kind, anchor, price)
  {
    assert run.later[0] in run.later;
    OutermostIsExtreme(kind, run.anchor.price, run.later);
  }

  lemma {:induction false} InwardOfAnchor(kind: Kind, leg: real, anchor: real, price: real, tolerance: real)
    requires !Outside(kind, leg, price) && !Outside(kind, anchor, price)
    requires Near(price, anchor, tolerance) && !Near(leg, anchor, tolerance)
    ensures Outside(kind, anchor, leg)
  {}

  /** A run that is closed, but not by a completed leg, was closed by the last leg alone. */
  lemma {:induction false} ClosedByLastLeg(legs: seq<Pivot>, tolerance: real, kind: Kind, level: EqualLevel, r: nat)
    requires |legs| > 0 && !ClosedBy(legs, tolerance, kind, level, |legs| - 1)
    requires var runs := Runs(legs, tolerance, kind, |legs|);
             r < |runs| - 1 && LevelOf(kind, runs[r]) == [level]
    ensures var m := |legs| - 1; var early := Runs(legs, tolerance, kind, m);
            && legs[m].kind == kind && r == |early| - 1 && early[r] == level.run
            && !Near(legs[m].price, level.run.anchor.price, tolerance)
  {
    var m, runs := |legs| - 1, Runs(legs, tolerance, kind, |legs|);
    var early := Runs(legs, tolerance, kind, m);
    assert runs == if legs[m].kind != kind then early
                   else PushRun(early, MatchesAnchor(legs, tolerance, kind, m), Touch(m, legs[m].price));
    assert r < |early| && early[r] == runs[r];
  }

  /** The last leg closed the run without trading beyond the level, so it lies inward of the anchor. */
  lemma {:induction false} UntakenLiesInward(p: seq<Pivot>, tolerance: real, kind: Kind, level: EqualLevel)
    requires var legs := Legs(p);
             && |legs| > 0 && legs[|legs| - 1].kind == kind && LastMember(level).index < |legs| - 1
    requires level.kind == EqualKindOf(kind) && !Taken(StructureOf(p, tolerance).swings, level)
    ensures !Outside(kind, Legs(p)[|Legs(p)| - 1].price, level.price)
  {
    hide StructureOf, Legs;
    StructureFacts.SwingShape(p, tolerance, |Legs(p)| - 1);
  }

  /** Whatever the time, one or two further pivots rejoin the run of a level that is not settled. */
  lemma {:induction false} UnsettledRejoins(p: seq<Pivot>, tolerance: real, kind: Kind, level: EqualLevel, time: int)
    returns (q: seq<Pivot>)
    requires level in LevelsOfSide(StructureOf(p, tolerance), kind) && !Settled(p, tolerance, kind, level)
    ensures NotBefore(q, time) && Rejoined(Legs(p + q), tolerance, kind, level.run, time)
  {
    hide StructureOf, Legs, Levels, Near, Taken, ClosedBy;
    LevelsOfStructure(p, tolerance, kind);
    var legs, anchor := Legs(p), level.run.anchor.price;
    var r := LevelRun(legs, tolerance, kind, level);
    var m := |legs| - 1;
    assert m >= 0;
    hide Runs;
    var retest := Pivot(time, anchor, kind);
    if r == |Runs(legs, tolerance, kind, |legs|)| - 1 {
      if legs[m].kind == kind {
        q := [Pivot(time, anchor, OtherKind(kind)), retest.(time := time + 1)];
        PullbackThenRetestJoins(p, tolerance, kind, level.run, time);
      } else {
        q := [retest];
        RetestJoins(p, tolerance, kind, level.run, time);
      }
    } else {
      ClosedByLastLeg(legs, tolerance, kind, level, r);
      RunsEndBefore(legs, tolerance, kind, m);
      UntakenLiesInward(p, tolerance, kind, level);
      InwardOfAnchor(kind, legs[m].price, anchor, level.price, tolerance);
      q := [retest];
      LastLegMovesIn(p, tolerance, kind, level.run, time);
    }
  }

  /** Then the only level with that anchor is the grown one, and its last member is the last leg. */
  lemma {:induction false} RejoinedLevel(legs: seq<Pivot>, tolerance: real, kind: Kind, run: Run, time: int,
                                         level: EqualLevel)
    requires Rejoined(legs, tolerance, kind, run, time)
    requires level in Levels(kind, Runs(legs, tolerance, kind, |legs|)) && level.run.anchor == run.anchor
    ensures level.run != run && LastMember(level).index == |legs| - 1
  {
    var runs := Runs(legs, tolerance, kind, |legs|);
    RunAnchorsAscend(legs, tolerance, kind, |legs|);
    LevelsFromRuns(kind, runs, level);
    hide Runs, Levels;
    var r :| 0 <= r < |runs| && LevelOf(kind, runs[r]) == [level];
    assert r == |runs| - 1;
  }

  // ---------------------------------------------------------------- all futures

  /** A level is in every future's structure exactly when it is settled; and the futures that unsettle it can be
      as late as one likes. */
  lemma {:induction false} SettledIffEveryFuture(p: seq<Pivot>, tolerance: real, kind: Kind, level: EqualLevel,
                                                 time: int)
    requires level in LevelsOfSide(StructureOf(p, tolerance), kind)
    ensures Settled(p, tolerance, kind, level)
            <==> forall q :: NotBefore(q, time) ==> level in LevelsOfSide(StructureOf(p + q, tolerance), kind)
  {
    hide StructureOf, Settled, Legs, Runs, Levels, Rejoined;
    if Settled(p, tolerance, kind, level) {
      forall q | NotBefore(q, time) ensures level in LevelsOfSide(StructureOf(p + q, tolerance), kind) {
        SettledStays(p, q, tolerance, kind, level);
      }
    } else {
      var q := UnsettledRejoins(p, tolerance, kind, level, time);
      LevelsOfStructure(p + q, tolerance, kind);
      if level in LevelsOfSide(StructureOf(p + q, tolerance), kind) {
        RejoinedLevel(Legs(p + q), tolerance, kind, level.run, time, level);
        assert false;
      }
    }
  }

  /** The pools one pass works on, in whatever order they were ranked. */
  ghost predicate PoolsAt(p: seq<Pivot>, tolerance: real, pools: seq<Pool>) {
    var ms := StructureOf(p, tolerance);
    && LevelsListed(ms.swings, ms.equalHighs + ms.equalLows)
    && multiset(pools) == multiset(PoolsOf(ms.swings, ms.equalHighs + ms.equalLows, tolerance))
  }

  /** The level's own pool is one of them. */
  ghost predicate PoolOfLevel(p: seq<Pivot>, tolerance: real, kind: Kind, pool: Pool) {
    var ms := StructureOf(p, tolerance);
    && pool.level in LevelsOfSide(ms, kind) && LastMember(pool.level).index < |ms.swings|
    && pool == PoolOf(ms.swings, pool.level, tolerance)
  }

  lemma {:induction false} PoolsAtMember(p: seq<Pivot>, tolerance: real, pools: seq<Pool>, pool: Pool)
    requires PoolsAt(p, tolerance, pools)
    ensures pool in pools <==> exists kind :: PoolOfLevel(p, tolerance, kind, pool)
  {
    hide StructureOf, Taken, Confidence;
    var ms := StructureOf(p, tolerance);
    var levels := ms.equalHighs + ms.equalLows;
    var plain := PoolsOf(ms.swings, levels, tolerance);
    assert pool in pools <==> pool in multiset(pools);
    assert pool in plain <==> pool in multiset(plain);
    if pool in plain {
      var k :| 0 <= k < |plain| && plain[k] == pool;
      assert PoolOfLevel(p, tolerance, if k < |ms.equalHighs| then High else Low, pool);
    }
    if kind :| PoolOfLevel(p, tolerance, kind, pool) {
      assert pool.level in levels;
      var k :| 0 <= k < |levels| && levels[k] == pool.level;
      assert plain[k] == pool;
    }
  }

  lemma {:induction false} LevelKinds(p: seq<Pivot>, tolerance: real, kind: Kind, level: EqualLevel)
    requires level in LevelsOfSide(StructureOf(p, tolerance), kind)
    ensures level.kind == EqualKindOf(kind)
  {
    hide StructureOf, Legs, Runs;
    LevelsOfStructure(p, tolerance, kind);
    LevelsFromRuns(kind, Runs(Legs(p), tolerance, kind, |Legs(p)|), level);
  }

  /** The pass still reports the sweep under the pool that carries on the level's run. */
  ghost predicate Reports(pools: seq<Pool>, candles: seq<Candle>, kind: Kind, anchor: Touch, s: Sweep) {
    exists k: nat :: k < |pools| && pools[k].level.kind == EqualKindOf(kind) && pools[k].level.run.anchor == anchor
      && s.(pool := k) in Sweeps(pools, candles)
  }

  /** Every pass over pivots that go on from `time` and candles that go on from here reports the sweep. */
  ghost predicate ReportedFrom(p: seq<Pivot>, tolerance: real, kind: Kind, anchor: Touch, a: seq<Candle>, s: Sweep,
                               time: int) {
    forall q, b, pools :: NotBefore(q, time) && PoolsAt(p + q, tolerance, pools) ==>
      Reports(pools, a + b, kind, anchor, s)
  }

  lemma {:induction false} SettledIsReported(p: seq<Pivot>, q: seq<Pivot>, tolerance: real, kind: Kind,
                                             pools: seq<Pool>, pools': seq<Pool>, a: seq<Candle>, b: seq<Candle>,
                                             s: Sweep)
    requires s in Sweeps(pools, a) && s.pool < |pools| && PoolOfLevel(p, tolerance, kind, pools[s.pool])
    requires Settled(p, tolerance, kind, pools[s.pool].level) && PoolsAt(p + q, tolerance, pools')
    ensures Reports(pools', a + b, kind, pools[s.pool].level.run.anchor, s)
  {
    hide StructureOf, Settled, Sweeps, PoolsAt;
    var level, after := pools[s.pool].level, StructureOf(p + q, tolerance).swings;
    SettledLine(p, q, tolerance, kind, level);
    SettledStays(p, q, tolerance, kind, level);
    LevelKinds(p, tolerance, kind, level);
    var pool := PoolOf(after, level, tolerance);
    assert PoolOfLevel(p + q, tolerance, kind, pool);
    PoolsAtMember(p + q, tolerance, pools', pool);
    var k' :| 0 <= k' < |pools'| && pools'[k'] == pool;
    SettledSweepsSurvive(p, q, tolerance, kind, level, pools, pools', s.pool, k', a, b);
  }

  lemma {:induction false} RejoinedIsSilent(p: seq<Pivot>, tolerance: real, kind: Kind, run: Run, pools: seq<Pool>,
                                            candles: seq<Candle>, s: Sweep)
    requires PoolsAt(p, tolerance, pools) && Rejoined(Legs(p), tolerance, kind, run, s.time)
    ensures !Reports(pools, candles, kind, run.anchor, s)
  {
    hide StructureOf, Legs, Rejoined, PoolsAt, Sweeps;
    OneSweepPerPool(pools, candles);
    forall k: nat | k < |pools| && pools[k].level.kind == EqualKindOf(kind) && pools[k].level.run.anchor == run.anchor
      ensures s.(pool := k) !in Sweeps(pools, candles)
    {
      PoolsAtMember(p, tolerance, pools, pools[k]);
      var found :| PoolOfLevel(p, tolerance, found, pools[k]);
      LevelKinds(p, tolerance, found, pools[k].level);
      RejoinedTouch(p, tolerance, kind, run, s.time, pools[k]);
      DeciderMember(pools[k], candles);
    }
  }

  lemma {:induction false} RejoinedTouch(p: seq<Pivot>, tolerance: real, kind: Kind, run: Run, time: int, pool: Pool)
    requires Rejoined(Legs(p), tolerance, kind, run, time) && PoolOfLevel(p, tolerance, kind, pool)
    requires pool.level.run.anchor == run.anchor
    ensures pool.lastTouch >= time
  {
    hide StructureOf, Legs, Runs, Levels;
    LevelsOfStructure(p, tolerance, kind);
    RejoinedLevel(Legs(p), tolerance, kind, run, time, pool.level);
    StructureFacts.SwingShape(p, tolerance, |Legs(p)| - 1);
  }

  lemma {:induction false} PoolsExist(p: seq<Pivot>, tolerance: real) returns (pools: seq<Pool>)
    ensures PoolsAt(p, tolerance, pools)
  {
    hide StructureOf, PoolOf;
    StructureLevelsListed(p, tolerance);
    var ms := StructureOf(p, tolerance);
    pools := PoolsOf(ms.swings, ms.equalHighs + ms.equalLows, tolerance);
  }

  /** A reported sweep is reported by every later pass, whatever pivots and candles arrive, exactly when its level
      is settled. One or two pivots are enough to silence any other, however late they come. */
  lemma {:induction false} SweepIsFinalIff(p: seq<Pivot>, tolerance: real, kind: Kind, pools: seq<Pool>,
                                           a: seq<Candle>, s: Sweep, time: int)
    requires s in Sweeps(pools, a) && s.pool < |pools| && PoolOfLevel(p, tolerance, kind, pools[s.pool])
    requires s.time <= time
    ensures var level := pools[s.pool].level;
            Settled(p, tolerance, kind, level)
            <==> ReportedFrom(p, tolerance, kind, level.run.anchor, a, s, time)
  {
    hide StructureOf, Settled, Legs, Sweeps, PoolsAt, Reports;
    var level := pools[s.pool].level;
    if Settled(p, tolerance, kind, level) {
      forall q, b, pools' | NotBefore(q, time) && PoolsAt(p + q, tolerance, pools')
        ensures Reports(pools', a + b, kind, level.run.anchor, s)
      {
        SettledIsReported(p, q, tolerance, kind, pools, pools', a, b, s);
      }
    } else {
      var q := UnsettledRejoins(p, tolerance, kind, level, time);
      var pools' := PoolsExist(p + q, tolerance);
      RejoinedIsSilent(p + q, tolerance, kind, level.run, pools', a + [], s);
      assert !ReportedFrom(p, tolerance, kind, level.run.anchor, a, s, time);
    }
  }
}
