/** What pools and sweeps promise: sweeps are append-only and one per pool, spent pools stay spent. */
module LiquidityFacts {
  import opened Types
  import opened Structure
  import opened Liquidity
  import StructureFacts
  import Sorting

  // ---------------------------------------------------------------- sweeps

  lemma {:induction false} DeciderConcat(pool: Pool, a: seq<Candle>, b: seq<Candle>)
    ensures Decider(pool, a + b) == if Decider(pool, a).Some? then Decider(pool, a) else Decider(pool, b)
  {
    if |a| == 0 {
      assert a + b == b;
    } else {
      DeciderConcat(pool, a[1..], b);
      assert (a + b)[1..] == a[1..] + b;
    }
  }

  lemma {:induction false} DeciderMember(pool: Pool, candles: seq<Candle>)
    ensures Decider(pool, candles).Some? ==>
            Decider(pool, candles).value in candles && Penetrates(pool, Decider(pool, candles).value)
  {
    if |candles| > 0 { DeciderMember(pool, candles[1..]); }
  }

  lemma {:induction false} SweepOrderTotal()
    ensures Sorting.TotalPreorder(SweepOrder)
  {}

  /** `Early` sweeps happened no later than the last old candle. */
  predicate Early(cut: int, s: Sweep) { s.time <= cut }

  lemma {:induction false} OldSweepsAreEarly(pools: seq<Pool>, a: seq<Candle>, b: seq<Candle>)
    requires Ascending(a + b) && |a| > 0
    ensures Sorting.Select(RawSweeps(pools, a + b), (s: Sweep) => Early(a[|a| - 1].time, s)) == RawSweeps(pools, a)
  {
    if |pools| > 0 {
      var init, last := pools[..|pools| - 1], pools[|pools| - 1];
      var cut := a[|a| - 1].time;
      var early := (s: Sweep) => Early(cut, s);
      OldSweepsAreEarly(init, a, b);
      DeciderConcat(last, a, b);
      DeciderMember(last, a);
      DeciderMember(last, b);
      forall c | c in a ensures c.time <= cut {
        var k :| 0 <= k < |a| && a[k] == c;
        if k < |a| - 1 { assert (a + b)[k].time < (a + b)[|a| - 1].time; }
      }
      forall c | c in b ensures c.time > cut {
        var k :| 0 <= k < |b| && b[k] == c;
        assert (a + b)[|a| - 1].time < (a + b)[|a| + k].time;
      }
      var raw, tail := RawSweeps(init, a + b), SweepOf(last, |pools| - 1, a + b);
      if tail.Some? {
        assert (raw + [tail.value])[..|raw|] == raw;
      } else {
        assert raw + [] == raw;
      }
    }
  }

  /** New candles only append: the old sweep list is a prefix of the new one. */
  lemma {:induction false} SweepsAppendOnly(pools: seq<Pool>, a: seq<Candle>, b: seq<Candle>)
    requires Ascending(a + b)
    ensures Sweeps(pools, a) <= Sweeps(pools, a + b)
  {
    SweepOrderTotal();
    if |a| == 0 {
      NoCandlesNoSweeps(pools);
    } else {
      var cut := a[|a| - 1].time;
      var early := (s: Sweep) => Early(cut, s);
      OldSweepsAreEarly(pools, a, b);
      Sorting.SortSplits(RawSweeps(pools, a + b), SweepOrder, early);
    }
  }

  lemma {:induction false} NoCandlesNoSweeps(pools: seq<Pool>)
    ensures RawSweeps(pools, []) == []
  {
    if |pools| > 0 { NoCandlesNoSweeps(pools[..|pools| - 1]); }
  }

  lemma {:induction false} RawSweepAt(pools: seq<Pool>, candles: seq<Candle>, s: Sweep)
    ensures s in RawSweeps(pools, candles) <==> s.pool < |pools| && SweepOf(pools[s.pool], s.pool, candles) == Some(s)
  {
    if |pools| > 0 { RawSweepAt(pools[..|pools| - 1], candles, s); }
  }

  /** The list holds exactly the sweep of each pool that was swept: two entries never share a pool. */
  lemma {:induction false} OneSweepPerPool(pools: seq<Pool>, candles: seq<Candle>)
    ensures forall s ::
            s in Sweeps(pools, candles) <==> s.pool < |pools| && SweepOf(pools[s.pool], s.pool, candles) == Some(s)
    ensures forall s :: multiset(Sweeps(pools, candles))[s] <= 1
    ensures forall i, j :: 0 <= i < j < |Sweeps(pools, candles)| ==>
            Sweeps(pools, candles)[i].pool != Sweeps(pools, candles)[j].pool
  {
    var raw, out := RawSweeps(pools, candles), Sweeps(pools, candles);
    Sorting.SortKeeps(raw, SweepOrder);
    forall s ensures s in out <==> s.pool < |pools| && SweepOf(pools[s.pool], s.pool, candles) == Some(s) {
      RawSweepAt(pools, candles, s);
    }
    RawNoRepeats(pools, candles);
    forall i, j | 0 <= i < j < |out| ensures out[i].pool != out[j].pool {
      NoRepeats(out, i, j);
      assert out[i] in out && out[j] in out;
    }
  }

  lemma {:induction false} NoRepeats<T>(s: seq<T>, i: nat, j: nat)
    requires i < j < |s| && forall x :: multiset(s)[x] <= 1
    ensures s[i] != s[j]
  {
    assert s == s[..j] + [s[j]] + s[j + 1..];
    assert multiset(s)[s[j]] >= multiset(s[..j])[s[j]] + 1;
    assert s[i] in s[..j];
  }

  lemma {:induction false} RawNoRepeats(pools: seq<Pool>, candles: seq<Candle>)
    ensures forall s :: multiset(RawSweeps(pools, candles))[s] <= 1
  {
    if |pools| > 0 {
      var init := pools[..|pools| - 1];
      RawNoRepeats(init, candles);
      var last := SweepOf(pools[|pools| - 1], |pools| - 1, candles);
      if last.Some? { RawSweepAt(init, candles, last.value); }
    }
  }

  // ---------------------------------------------------------------- a sweep, candle by candle

  /** The candle trades through the line after the completing touch. */
  ghost predicate Through(pool: Pool, c: Candle) {
    pool.lastTouch < c.time && match pool.side case Bsl => pool.price < c.high case Ssl => c.low < pool.price
  }

  ghost predicate FirstThrough(pool: Pool, candles: seq<Candle>, i: nat) {
    i < |candles| && Through(pool, candles[i]) && forall j :: 0 <= j < i ==> !Through(pool, candles[j])
  }

  lemma {:induction false} DeciderIsFirst(pool: Pool, candles: seq<Candle>, i: nat)
    requires FirstThrough(pool, candles, i)
    ensures Decider(pool, candles) == Some(candles[i])
  {
    if i > 0 {
      var rest := candles[1..];
      assert !Through(pool, candles[0]);
      assert forall j :: 0 <= j < i ==> rest[j] == candles[j + 1];
      DeciderIsFirst(pool, rest, i - 1);
    }
  }

  lemma {:induction false} DeciderNeedsThrough(pool: Pool, candles: seq<Candle>) returns (i: nat)
    requires Decider(pool, candles).Some?
    ensures FirstThrough(pool, candles, i)
  {
    if Penetrates(pool, candles[0]) {
      i := 0;
    } else {
      var rest := candles[1..];
      i := DeciderNeedsThrough(pool, rest);
      assert forall j :: 0 <= j < |rest| ==> rest[j] == candles[j + 1];
      i := i + 1;
    }
  }

  /** Back on its own side of the line by the close: at or below highs, at or above lows. */
  ghost predicate ClosedBack(pool: Pool, c: Candle) {
    match pool.side case Bsl => c.close <= pool.price case Ssl => pool.price <= c.close
  }

  /** The list holds a pool's sweep exactly when the first candle through its line closed back, and then it is that
      candle's. */
  lemma {:induction false} SweptIff(pools: seq<Pool>, candles: seq<Candle>, k: nat)
    requires k < |pools|
    ensures (exists s :: s in Sweeps(pools, candles) && s.pool == k)
            <==> exists i: nat :: FirstThrough(pools[k], candles, i) && ClosedBack(pools[k], candles[i])
    ensures forall i: nat, s :: FirstThrough(pools[k], candles, i) && s in Sweeps(pools, candles) && s.pool == k ==>
              s.time == candles[i].time && s.close == candles[i].close
              && s.extreme == match pools[k].side case Bsl => candles[i].high case Ssl => candles[i].low
  {
    var pool := pools[k];
    hide Sweeps, FirstThrough, Through;
    OneSweepPerPool(pools, candles);
    forall i: nat | FirstThrough(pool, candles, i) ensures Decider(pool, candles) == Some(candles[i]) {
      DeciderIsFirst(pool, candles, i);
    }
    if Decider(pool, candles).Some? {
      var i := DeciderNeedsThrough(pool, candles);
      SweepFieldsOf(pool, k, candles, i);
    }
  }

  lemma {:induction false} SweepFieldsOf(pool: Pool, k: nat, candles: seq<Candle>, i: nat)
    requires FirstThrough(pool, candles, i)
    ensures SweepOf(pool, k, candles).Some? <==> ClosedBack(pool, candles[i])
    ensures SweepOf(pool, k, candles).Some? ==> SweepOf(pool, k, candles).value.pool == k
  {
    DeciderIsFirst(pool, candles, i);
  }

  /** Each sweep in its own fields: later than the touch, wicked strictly through its line and closed back at or
      inside it. */
  lemma {:induction false} SweepOnFields(pools: seq<Pool>, candles: seq<Candle>, s: Sweep)
    requires s in Sweeps(pools, candles)
    ensures s.pool < |pools| && s.side == pools[s.pool].side && s.price == pools[s.pool].price
    ensures pools[s.pool].lastTouch < s.time
    ensures match s.side case Bsl => s.close <= s.price < s.extreme case Ssl => s.extreme < s.price <= s.close
  {
    OneSweepPerPool(pools, candles);
    DeciderMember(pools[s.pool], candles);
  }

  /** The list runs in time, one time's sweeps from the lowest line, one line's from the buy side. */
  lemma {:induction false} SweepsInTimeOrder(pools: seq<Pool>, candles: seq<Candle>, i: nat, j: nat)
    requires i < j < |Sweeps(pools, candles)|
    ensures var a, b := Sweeps(pools, candles)[i], Sweeps(pools, candles)[j];
            && a.time <= b.time
            && (a.time == b.time ==> a.price <= b.price)
            && (a.time == b.time && a.price == b.price && b.side == Bsl ==> a.side == Bsl)
  {
    assert Sorting.TotalPreorder(SweepOrder);
    hide Sorting.Sort;
    Sorting.SortSorted(RawSweeps(pools, candles), SweepOrder);
    assert SweepOrder(Sweeps(pools, candles)[i], Sweeps(pools, candles)[j]);
  }

  /** Pools listed strongest first, of one strength from the lowest line, of one line from the buy side. */
  lemma {:induction false} PoolsStrongestFirst(pools: seq<Pool>, i: nat, j: nat)
    requires i < j < |pools| && Sorting.Sorted(pools, StrongestFirst)
    ensures var a, b := pools[i], pools[j];
            && a.confidence >= b.confidence
            && (a.confidence == b.confidence ==> a.price <= b.price)
            && (a.confidence == b.confidence && a.price == b.price && b.side == Bsl ==> a.side == Bsl)
  {
    assert StrongestFirst(pools[i], pools[j]);
  }

  // ---------------------------------------------------------------- spent pools stay spent

  /** Runs only grow: all but the open one are kept, and the open one keeps its anchor and members. */
  ghost predicate RunsGrow(before: seq<Run>, after: seq<Run>) {
    && |before| <= |after|
    && (forall r :: 0 <= r < |before| - 1 ==> after[r] == before[r])
  }

  lemma {:induction false} RunsOnlyGrow(legs: seq<Pivot>, tolerance: real, kind: Kind, m: nat, n: nat)
    requires m <= n <= |legs|
    ensures RunsGrow(Runs(legs, tolerance, kind, m), Runs(legs, tolerance, kind, n))
  {
    if m < n { RunsOnlyGrow(legs, tolerance, kind, m, n - 1); }
  }

  function LastIndex(run: Run): nat {
    if |run.later| == 0 then run.anchor.index else run.later[|run.later| - 1].index
  }

  /** A run that changed or appeared after `m` legs holds a leg from there on. */
  lemma {:induction false} LateRuns(legs: seq<Pivot>, tolerance: real, kind: Kind, m: nat, n: nat, r: nat)
    requires m <= n <= |legs| && r < |Runs(legs, tolerance, kind, n)|
    ensures LastIndex(Runs(legs, tolerance, kind, n)[r]) >= m
            || (r < |Runs(legs, tolerance, kind, m)|
                && Runs(legs, tolerance, kind, n)[r] == Runs(legs, tolerance, kind, m)[r])
  {
    if m < n && r < |Runs(legs, tolerance, kind, n - 1)| { LateRuns(legs, tolerance, kind, m, n - 1, r); }
  }

  ghost predicate LevelFrom(kind: Kind, runs: seq<Run>, level: EqualLevel) {
    exists r :: 0 <= r < |runs| && LevelOf(kind, runs[r]) == [level]
  }

  lemma {:induction false} LevelsFromRuns(kind: Kind, runs: seq<Run>, level: EqualLevel)
    ensures level in Levels(kind, runs) <==> LevelFrom(kind, runs, level)
  {
    if |runs| > 0 {
      var init := runs[..|runs| - 1];
      LevelsFromRuns(kind, init, level);
      if LevelFrom(kind, runs, level) {
        var r :| 0 <= r < |runs| && LevelOf(kind, runs[r]) == [level];
        assert r < |init| ==> init[r] == runs[r];
        assert level in LevelOf(kind, runs[r]);
      }
      if LevelFrom(kind, init, level) {
        var r :| 0 <= r < |init| && LevelOf(kind, init[r]) == [level];
        assert runs[r] == init[r];
      }
    }
  }

  /** A run already outlived at leg `j` by a leg beyond it survives any later leg list that agrees
      before `j` and whose leg `j` lies no nearer. */
  lemma {:induction false} OutlivedRunSurvives(a: seq<Pivot>, b: seq<Pivot>, tolerance: real, kind: Kind, j: nat,
                                               r: nat, price: real)
    requires j < |a| && j < |b| && StructureFacts.AgreeUpTo(a, b, j)
    requires a[j].kind == b[j].kind == kind && (a[j] == b[j] || Outside(kind, b[j].price, a[j].price))
    requires r < |Runs(a, tolerance, kind, |a|)| && LastIndex(Runs(a, tolerance, kind, |a|)[r]) < j
    requires Outside(kind, a[j].price, price) && !Outside(kind, Runs(a, tolerance, kind, |a|)[r].anchor.price, price)
    ensures r < |Runs(b, tolerance, kind, |b|)| && Runs(b, tolerance, kind, |b|)[r] == Runs(a, tolerance, kind, |a|)[r]
  {
    var run, early := Runs(a, tolerance, kind, |a|)[r], Runs(a, tolerance, kind, j);
    LateRuns(a, tolerance, kind, j, |a|, r);
    LateRuns(a, tolerance, kind, j + 1, |a|, r);
    assert early[r] == run && Runs(a, tolerance, kind, j + 1)[r] == run;
    assert r == |early| - 1 ==>
           && !Near(a[j].price, run.anchor.price, tolerance)
           && !Near(b[j].price, run.anchor.price, tolerance);
    StructureFacts.RunsLocal(a, b, tolerance, kind, j);
    assert Runs(b, tolerance, kind, j) == early;
    var next := Runs(b, tolerance, kind, j + 1);
    var matches := MatchesAnchor(b, tolerance, kind, j);
    assert next == PushRun(early, matches, Touch(j, b[j].price));
    assert matches ==> r < |early| - 1;
    assert r < |next| - 1 && next[r] == run;
    RunsOnlyGrow(b, tolerance, kind, j + 1, |b|);
  }

  function LevelsOfSide(ms: MarketStructure, kind: Kind): seq<EqualLevel> {
    if kind == High then ms.equalHighs else ms.equalLows
  }

  lemma {:induction false} LevelsOfStructure(p: seq<Pivot>, tolerance: real, kind: Kind)
    ensures |StructureOf(p, tolerance).swings| == |Legs(p)|
    ensures LevelsOfSide(StructureOf(p, tolerance), kind) == Levels(kind, Runs(Legs(p), tolerance, kind, |Legs(p)|))
  {
    hide Legs, Runs, Levels, LabelAt, EventAt;
  }

  /** A taken level is history: it stays in the structure, and stays taken, whatever pivots arrive. */
  lemma {:induction false} SpentStaysSpent(p: seq<Pivot>, q: seq<Pivot>, tolerance: real, kind: Kind, level: EqualLevel)
    requires level in LevelsOfSide(StructureOf(p, tolerance), kind) && Taken(StructureOf(p, tolerance).swings, level)
    ensures level in LevelsOfSide(StructureOf(p + q, tolerance), kind)
            && Taken(StructureOf(p + q, tolerance).swings, level)
  {
    hide StructureOf, Legs, Runs, Levels, LabelAt, EventAt;
    var a, b := Legs(p), Legs(p + q);
    var before, after := StructureOf(p, tolerance).swings, StructureOf(p + q, tolerance).swings;
    LegsFrozen(p, q);
    LevelsOfStructure(p, tolerance, kind);
    LevelsOfStructure(p + q, tolerance, kind);
    var j :| LastMember(level).index < j < |before|
             && before[j].kind == KindOf(SideOf(level.kind)) && Outside(before[j].kind, before[j].price, level.price);
    StructureFacts.SwingShape(p, tolerance, j);
    StructureFacts.SwingShape(p + q, tolerance, j);
    OutlivedLevelSurvives(a, b, tolerance, kind, level, j);
    assert Outside(after[j].kind, after[j].price, level.price);
  }

  lemma {:induction false} OutlivedLevelSurvives(a: seq<Pivot>, b: seq<Pivot>, tolerance: real, kind: Kind,
                                                 level: EqualLevel, j: nat)
    requires j < |a| <= |b| && StructureFacts.AgreeUpTo(a, b, |a| - 1)
    requires a[j].kind == b[j].kind && (a[j] == b[j] || Outside(a[j].kind, b[j].price, a[j].price))
    requires level in Levels(kind, Runs(a, tolerance, kind, |a|)) && LastMember(level).index < j
    requires a[j].kind == KindOf(SideOf(level.kind)) && Outside(a[j].kind, a[j].price, level.price)
    ensures level.kind == EqualKindOf(kind) && level in Levels(kind, Runs(b, tolerance, kind, |b|))
  {
    var runs := Runs(a, tolerance, kind, |a|);
    LevelsFromRuns(kind, runs, level);
    var r :| 0 <= r < |runs| && LevelOf(kind, runs[r]) == [level];
    OutermostIsExtreme(kind, runs[r].anchor.price, runs[r].later);
    OutlivedRunSurvives(a, b, tolerance, kind, j, r, level.price);
    assert LevelFrom(kind, Runs(b, tolerance, kind, |b|), level);
    LevelsFromRuns(kind, Runs(b, tolerance, kind, |b|), level);
  }

  // ---------------------------------------------------------------- the ranked pool list

  ghost function PoolOf(swings: seq<Swing>, level: EqualLevel, tolerance: real): Pool
    requires LastMember(level).index < |swings|
  {
    Pool(SideOf(level.kind), level.price, level, !Taken(swings, level), Confidence(level, |swings|, tolerance),
         swings[LastMember(level).index].time)
  }

  /** Every level's last member is one of the structure's swings. */
  ghost predicate LevelsListed(swings: seq<Swing>, levels: seq<EqualLevel>) {
    forall k :: 0 <= k < |levels| ==> LastMember(levels[k]).index < |swings|
  }

  ghost predicate EndBefore(runs: seq<Run>, n: nat) {
    forall r :: 0 <= r < |runs| ==> LastIndex(runs[r]) < n
  }

  lemma {:induction false} RunsEndBefore(legs: seq<Pivot>, tolerance: real, kind: Kind, n: nat)
    requires n <= |legs|
    ensures EndBefore(Runs(legs, tolerance, kind, n), n)
  {
    if n > 0 { RunsEndBefore(legs, tolerance, kind, n - 1); }
  }

  lemma {:induction false} LevelsEndBefore(kind: Kind, runs: seq<Run>, swings: seq<Swing>)
    requires EndBefore(runs, |swings|)
    ensures LevelsListed(swings, Levels(kind, runs))
  {
    if |runs| > 0 {
      var init, last := runs[..|runs| - 1], runs[|runs| - 1];
      assert EndBefore(init, |swings|);
      LevelsEndBefore(kind, init, swings);
      assert LastIndex(last) < |swings|;
      ListedConcat(swings, Levels(kind, init), LevelOf(kind, last));
    }
  }

  lemma {:induction false} ListedConcat(swings: seq<Swing>, a: seq<EqualLevel>, b: seq<EqualLevel>)
    requires LevelsListed(swings, a) && LevelsListed(swings, b)
    ensures LevelsListed(swings, a + b)
  {}

  /** So in a built structure the lookup by identity always finds the last member. */
  lemma {:induction false} StructureLevelsListed(p: seq<Pivot>, tolerance: real)
    ensures var ms := StructureOf(p, tolerance);
            LevelsListed(ms.swings, ms.equalHighs + ms.equalLows)
  {
    var ms := StructureOf(p, tolerance);
    var legs := Legs(p);
    RunsEndBefore(legs, tolerance, High, |legs|);
    RunsEndBefore(legs, tolerance, Low, |legs|);
    LevelsEndBefore(High, Runs(legs, tolerance, High, |legs|), ms.swings);
    LevelsEndBefore(Low, Runs(legs, tolerance, Low, |legs|), ms.swings);
    ListedConcat(ms.swings, ms.equalHighs, ms.equalLows);
  }

  predicate StrongestFirst(a: Pool, b: Pool) {
    || a.confidence > b.confidence
    || (a.confidence == b.confidence && (a.price < b.price || (a.price == b.price && (a.side == Bsl || b.side == Ssl))))
  }

  ghost function PoolsOf(swings: seq<Swing>, levels: seq<EqualLevel>, tolerance: real): seq<Pool>
    requires LevelsListed(swings, levels)
  {
    seq(|levels|, k requires 0 <= k < |levels| => PoolOf(swings, levels[k], tolerance))
  }

  /** One pool per equal level, spent ones included, strongest first. */
  method ComputeLiquidityPools(ms: MarketStructure, tolerance: real) returns (pools: seq<Pool>)
    requires LevelsListed(ms.swings, ms.equalHighs + ms.equalLows)
    ensures multiset(pools) == multiset(PoolsOf(ms.swings, ms.equalHighs + ms.equalLows, tolerance))
    ensures Sorting.Sorted(pools, StrongestFirst)
  {
    var levels := ms.equalHighs + ms.equalLows;
    pools := [];
    for k := 0 to |levels|
      invariant |pools| == k
      invariant forall j :: 0 <= j < k ==> pools[j] == PoolOf(ms.swings, levels[j], tolerance)
    {
      var pool := PoolFrom(ms.swings, levels[k], tolerance);
      pools := pools + [pool];
    }
    assert pools == PoolsOf(ms.swings, levels, tolerance);
    assert Sorting.TotalPreorder(StrongestFirst);
    Sorting.SortKeeps(pools, StrongestFirst);
    Sorting.SortSorted(pools, StrongestFirst);
    pools := Sorting.Sort(pools, StrongestFirst);
  }
}
