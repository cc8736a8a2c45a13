/** Sweeps over pools recomputed each pass (engine/smc/quant.py, engine/smc/liquidity.py): which sweeps outlive
    new pivots and new candles together. */
module SweepLife {
  import opened Types
  import opened Structure
  import opened Liquidity
  import opened LiquidityFacts
  import StructureFacts

  /** Among the first `m` legs the level's run is already followed by another. */
  ghost predicate ClosedBy(legs: seq<Pivot>, tolerance: real, kind: Kind, level: EqualLevel, m: nat)
    requires m <= |legs|
  {
    var runs := Runs(legs, tolerance, kind, m);
    exists r :: 0 <= r < |runs| - 1 && LevelOf(kind, runs[r]) == [level]
  }

  /** The level was traded beyond, or its run was closed by a leg that is itself complete. */
  ghost predicate Settled(p: seq<Pivot>, tolerance: real, kind: Kind, level: EqualLevel) {
    var ms := StructureOf(p, tolerance);
    && level in LevelsOfSide(ms, kind)
    && (Taken(ms.swings, level) || (|Legs(p)| > 0 && ClosedBy(Legs(p), tolerance, kind, level, |Legs(p)| - 1)))
  }

  lemma {:induction false} ClosedRunStays(a: seq<Pivot>, b: seq<Pivot>, tolerance: real, kind: Kind, m: nat, r: nat)
    requires m <= |a| && m <= |b| && StructureFacts.AgreeUpTo(a, b, m) && r + 1 < |Runs(a, tolerance, kind, m)|
    ensures r < |Runs(b, tolerance, kind, |b|)| && Runs(b, tolerance, kind, |b|)[r] == Runs(a, tolerance, kind, m)[r]
  {
    StructureFacts.RunsLocal(a, b, tolerance, kind, m);
    RunsOnlyGrow(b, tolerance, kind, m, |b|);
  }

  /** A settled level stays in the structure, and its last member is a completed swing. */
  lemma {:induction false} SettledStays(p: seq<Pivot>, q: seq<Pivot>, tolerance: real, kind: Kind, level: EqualLevel)
    requires Settled(p, tolerance, kind, level)
    ensures level in LevelsOfSide(StructureOf(p + q, tolerance), kind)
    ensures LastMember(level).index + 1 < |StructureOf(p, tolerance).swings|
  {
    var ms := StructureOf(p, tolerance);
    if Taken(ms.swings, level) {
      SpentStaysSpent(p, q, tolerance, kind, level);
    } else {
      ClosedStays(p, q, tolerance, kind, level);
    }
  }

  lemma {:induction false} ClosedStays(p: seq<Pivot>, q: seq<Pivot>, tolerance: real, kind: Kind, level: EqualLevel)
    requires |Legs(p)| > 0 && ClosedBy(Legs(p), tolerance, kind, level, |Legs(p)| - 1)
    ensures level in LevelsOfSide(StructureOf(p + q, tolerance), kind)
    ensures LastMember(level).index + 1 < |StructureOf(p, tolerance).swings|
  {
    hide StructureOf, Legs, Runs, Levels, LabelAt, EventAt;
    LevelsOfStructure(p, tolerance, kind);
    LevelsOfStructure(p + q, tolerance, kind);
    var a, b, m := Legs(p), Legs(p + q), |Legs(p)| - 1;
    LegsFrozen(p, q);
    var runs := Runs(a, tolerance, kind, m);
    var r :| 0 <= r < |runs| - 1 && LevelOf(kind, runs[r]) == [level];
    ClosedRunStays(a, b, tolerance, kind, m, r);
    assert LevelFrom(kind, Runs(b, tolerance, kind, |b|), level);
    LevelsFromRuns(kind, Runs(b, tolerance, kind, |b|), level);
    RunsEndBefore(a, tolerance, kind, m);
    assert LastMember(level).index == LastIndex(runs[r]);
  }

  /** Only the line and the completing touch decide a sweep. */
  predicate SameLine(x: Pool, y: Pool) { x.side == y.side && x.price == y.price && x.lastTouch == y.lastTouch }

  lemma {:induction false} SweepReadsTheLine(x: Pool, y: Pool, i: nat, j: nat, candles: seq<Candle>)
    requires SameLine(x, y)
    ensures Decider(x, candles) == Decider(y, candles)
    ensures match SweepOf(x, i, candles)
            case None => SweepOf(y, j, candles) == None
            case Some(s) => SweepOf(y, j, candles) == Some(s.(pool := j))
  {
    if |candles| > 0 && !Penetrates(x, candles[0]) { SweepReadsTheLine(x, y, i, j, candles[1..]); }
  }

  lemma {:induction false} SettledLine(p: seq<Pivot>, q: seq<Pivot>, tolerance: real, kind: Kind, level: EqualLevel)
    requires Settled(p, tolerance, kind, level)
    ensures var before, after := StructureOf(p, tolerance).swings, StructureOf(p + q, tolerance).swings;
            var last := LastMember(level).index;
            last < |before| && last < |after|
              && SameLine(PoolOf(before, level, tolerance), PoolOf(after, level, tolerance))
  {
    hide StructureOf, Settled, Confidence, Taken;
    SettledStays(p, q, tolerance, kind, level);
    StructureFacts.SwingsFrozen(p, q, tolerance);
  }

  /** A sweep of a settled level survives any later pivots and candles: whatever list holds the level's recomputed
      pool, its sweep is the same sweep under that pool's place. */
  lemma {:induction false} SettledSweepsSurvive(p: seq<Pivot>, q: seq<Pivot>, tolerance: real, kind: Kind,
                                                level: EqualLevel, pools: seq<Pool>, pools': seq<Pool>, k: nat, k': nat,
                                                a: seq<Candle>, b: seq<Candle>)
    requires Settled(p, tolerance, kind, level)
    requires var before := StructureOf(p, tolerance).swings;
             k < |pools| && LastMember(level).index < |before| && pools[k] == PoolOf(before, level, tolerance)
    requires var after := StructureOf(p + q, tolerance).swings;
             k' < |pools'| && LastMember(level).index < |after| && pools'[k'] == PoolOf(after, level, tolerance)
    ensures forall s :: s in Sweeps(pools, a) && s.pool == k ==> s.(pool := k') in Sweeps(pools', a + b)
  {
    hide StructureOf, Settled, PoolOf, SweepOf;
    SettledLine(p, q, tolerance, kind, level);
    OneSweepPerPool(pools, a);
    OneSweepPerPool(pools', a + b);
    forall s | s in Sweeps(pools, a) && s.pool == k ensures s.(pool := k') in Sweeps(pools', a + b) {
      SweepReadsTheLine(pools[k], pools'[k'], k, k', a);
      SweepStands(pools'[k'], k', a, b);
    }
  }

  lemma {:induction false} SweepStands(pool: Pool, k: nat, a: seq<Candle>, b: seq<Candle>)
    ensures SweepOf(pool, k, a).Some? ==> SweepOf(pool, k, a + b) == SweepOf(pool, k, a)
  {
    DeciderConcat(pool, a, b);
  }

  // ---------------------------------------------------------------- an open run

  const TOP := Pivot(10, 1000.0, High)
  const DIP := Pivot(20, 900.0, Low)
  const RETEST := Pivot(30, 1000.0, High)
  const LOW := Pivot(40, 900.0, Low)
  const SPIKE := Pivot(50, 1000.5, High)
  const DOUBLE_TOP: seq<Pivot> := [TOP, DIP, RETEST, LOW]

  /** The bar of the spike, before it has confirmed as a pivot. */
  const WICK := Candle(50, 999.0, 1000.5, 998.0, 999.0)

  const TWICE := Run(Touch(0, 1000.0), [Touch(2, 1000.0)])
  const THRICE := Run(Touch(0, 1000.0), [Touch(2, 1000.0), Touch(4, 1000.5)])

  lemma {:induction false} LegsSnoc(p: seq<Pivot>, x: Pivot)
    ensures Legs(p + [x]) == PushPivot(Legs(p), x)
  {
    assert (p + [x])[..|p|] == p;
  }

  lemma {:induction false} DoubleTopLegs()
    ensures Legs(DOUBLE_TOP) == DOUBLE_TOP && Legs(DOUBLE_TOP + [SPIKE]) == DOUBLE_TOP + [SPIKE]
  {
    hide Legs;
    LegsSnoc([], TOP);
    LegsSnoc([TOP], DIP);
    LegsSnoc([TOP, DIP], RETEST);
    LegsSnoc([TOP, DIP, RETEST], LOW);
    LegsSnoc(DOUBLE_TOP, SPIKE);
    assert Legs([]) == [] by { LegsOfNothing(); }
    assert [] + [TOP] == [TOP] && [TOP] + [DIP] == [TOP, DIP] && [TOP, DIP] + [RETEST] == [TOP, DIP, RETEST];
    assert [TOP, DIP, RETEST] + [LOW] == DOUBLE_TOP;
  }

  lemma {:induction false} LegsOfNothing()
    ensures Legs([]) == []
  {}

  lemma {:induction false} JoinsRun(legs: seq<Pivot>, tolerance: real, n: nat, run: Run)
    requires n < |legs| && legs[n].kind == High && Runs(legs, tolerance, High, n) == [run]
    requires Near(legs[n].price, run.anchor.price, tolerance)
    ensures Runs(legs, tolerance, High, n + 1) == [Run(run.anchor, run.later + [Touch(n, legs[n].price)])]
  {
    assert [run][..0] == [];
  }

  lemma {:induction false} SkipsRun(legs: seq<Pivot>, tolerance: real, n: nat)
    requires n < |legs| && legs[n].kind == Low
    ensures Runs(legs, tolerance, High, n + 1) == Runs(legs, tolerance, High, n)
  {}

  lemma {:induction false} FirstRun(legs: seq<Pivot>, tolerance: real)
    requires |legs| > 0 && legs[0].kind == High
    ensures Runs(legs, tolerance, High, 1) == [Run(Touch(0, legs[0].price), [])]
  {
    assert Runs(legs, tolerance, High, 0) == [];
  }

  lemma {:induction false} DoubleTopRuns(legs: seq<Pivot>)
    requires legs == DOUBLE_TOP || legs == DOUBLE_TOP + [SPIKE]
    ensures Runs(legs, EQUAL_LEVEL_TOLERANCE, High, 4) == [TWICE]
    ensures |legs| == 5 ==> Runs(legs, EQUAL_LEVEL_TOLERANCE, High, 5) == [THRICE]
  {
    hide Runs;
    var tolerance, once := EQUAL_LEVEL_TOLERANCE, Run(Touch(0, 1000.0), []);
    assert legs[0] == TOP && legs[1] == DIP && legs[2] == RETEST && legs[3] == LOW;
    FirstRun(legs, tolerance);
    SkipsRun(legs, tolerance, 1);
    JoinsRun(legs, tolerance, 2, once);
    assert once.later + [Touch(2, 1000.0)] == TWICE.later;
    SkipsRun(legs, tolerance, 3);
    if |legs| == 5 {
      assert legs[4] == SPIKE;
      JoinsRun(legs, tolerance, 4, TWICE);
      assert TWICE.later + [Touch(4, 1000.5)] == THRICE.later;
    }
  }

  lemma {:induction false} TopLevels()
    ensures Levels(High, [TWICE]) == [EqualLevel(Eqh, 1000.0, TWICE)]
    ensures Levels(High, [THRICE]) == [EqualLevel(Eqh, 1000.5, THRICE)]
  {
    assert THRICE.later[..1] == [Touch(2, 1000.0)] && TWICE.later[..0] == [] && THRICE.later[..1][..0] == [];
    assert Outermost(High, 1000.0, []) == 1000.0;
    assert Outermost(High, 1000.0, TWICE.later) == 1000.0;
    assert Outermost(High, 1000.0, THRICE.later) == 1000.5;
    assert [TWICE][..0] == [] && [THRICE][..0] == [];
  }

  lemma {:induction false} TooEarly(pool: Pool, c: Candle)
    requires c.time <= pool.lastTouch
    ensures SweepOf(pool, 0, [c]) == None
  {
    assert Decider(pool, [c]) == Decider(pool, [c][1..]);
    assert [c][1..] == [] && Decider(pool, []) == None;
  }

  lemma {:induction false} HighLevels(p: seq<Pivot>, tolerance: real)
    ensures StructureOf(p, tolerance).equalHighs == Levels(High, Runs(Legs(p), tolerance, High, |Legs(p)|))
    ensures |StructureOf(p, tolerance).swings| == |Legs(p)|
  {}

  /** A wick through an open double top is a sweep until its own bar confirms as a pivot within tolerance: it then
      joins the run, the completing touch moves to it, and no sweep is left. */
  lemma {:induction false} OpenRunLosesItsSweep()
    ensures var before, after := StructureOf(DOUBLE_TOP, EQUAL_LEVEL_TOLERANCE),
            StructureOf(DOUBLE_TOP + [SPIKE], EQUAL_LEVEL_TOLERANCE);
            && before.equalHighs == [EqualLevel(Eqh, 1000.0, TWICE)] && |before.swings| == 4
            && after.equalHighs == [EqualLevel(Eqh, 1000.5, THRICE)] && |after.swings| == 5
            && SweepOf(PoolOf(before.swings, before.equalHighs[0], EQUAL_LEVEL_TOLERANCE), 0, [WICK]).Some?
            && SweepOf(PoolOf(after.swings, after.equalHighs[0], EQUAL_LEVEL_TOLERANCE), 0, [WICK]).None?
  {
    hide StructureOf, Legs, Runs, Levels, Confidence, Taken;
    DoubleTopLegs();
    DoubleTopRuns(DOUBLE_TOP);
    DoubleTopRuns(DOUBLE_TOP + [SPIKE]);
    TopLevels();
    HighLevels(DOUBLE_TOP, EQUAL_LEVEL_TOLERANCE);
    HighLevels(DOUBLE_TOP + [SPIKE], EQUAL_LEVEL_TOLERANCE);
    StructureFacts.SwingShape(DOUBLE_TOP, EQUAL_LEVEL_TOLERANCE, 2);
    StructureFacts.SwingShape(DOUBLE_TOP + [SPIKE], EQUAL_LEVEL_TOLERANCE, 4);
    assert (DOUBLE_TOP + [SPIKE])[4] == SPIKE;
    var after := StructureOf(DOUBLE_TOP + [SPIKE], EQUAL_LEVEL_TOLERANCE);
    var pool := PoolOf(after.swings, after.equalHighs[0], EQUAL_LEVEL_TOLERANCE);
    assert pool.lastTouch == 50;
    TooEarly(pool, WICK);
  }
}
