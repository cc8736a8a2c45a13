/** Pivot detection (engine/smc/analysis.py). */
module Analysis {
  import opened Types
  import opened Structure
  import StructureFacts
  import Strength
  import Sorting

  function CeilDiv(n: nat, d: nat): nat
    requires d > 0
  {
    (n + d - 1) / d
  }

  function PivotWindow(count: nat): (k: nat)
    ensures 3 <= k <= 12
  {
    var k := CeilDiv(count, 40);
    if k < 3 then 3 else if k > 12 then 12 else k
  }

  function Level(c: Candle, kind: Kind): real { if kind == High then c.high else c.low }

  /** Bar `j` denies bar `i` a pivot: it lies further out, or ties it from the left. */
  predicate Beats(candles: seq<Candle>, kind: Kind, j: nat, i: nat)
    requires i < |candles| && j < |candles|
  {
    var other, value := Level(candles[j], kind), Level(candles[i], kind);
    Outside(kind, other, value) || (other == value && j < i)
  }

  ghost predicate PivotAt(candles: seq<Candle>, i: nat, k: nat, kind: Kind) {
    k <= i && i + k < |candles| && forall j :: i - k <= j <= i + k && j != i ==> !Beats(candles, kind, j, i)
  }

  method IsPivotAt(candles: seq<Candle>, i: nat, k: nat, kind: Kind) returns (pivot: bool)
    requires k <= i && i + k < |candles|
    ensures pivot == PivotAt(candles, i, k, kind)
  {
    var value := Level(candles[i], kind);
    for j := i - k to i + k + 1
      invariant forall h :: i - k <= h < j && h != i ==> !Beats(candles, kind, h, i)
    {
      if j == i {
        continue;
      }
      var other := Level(candles[j], kind);
      if (if kind == High then other > value else other < value) {
        assert Beats(candles, kind, j, i);
        return false;
      }
      if other == value && j < i {
        assert Beats(candles, kind, j, i);
        return false;
      }
    }
    return true;
  }

  function PivotOf(c: Candle, kind: Kind): Pivot { Pivot(c.time, Level(c, kind), kind) }

  ghost function One(candles: seq<Candle>, i: nat, k: nat, kind: Kind): seq<Pivot>
    requires i < |candles|
  {
    if PivotAt(candles, i, k, kind) then [PivotOf(candles[i], kind)] else []
  }

  /** The pivots of bars `k..n`, in time order with a low before a high of the same bar. */
  ghost function Pivots(candles: seq<Candle>, k: nat, n: nat): seq<Pivot>
    requires n <= |candles|
  {
    if n <= k then [] else Pivots(candles, k, n - 1) + One(candles, n - 1, k, Low) + One(candles, n - 1, k, High)
  }

  /** The same pivots in the order they are found. */
  ghost function Found(candles: seq<Candle>, k: nat, n: nat): seq<Pivot>
    requires n <= |candles|
  {
    if n <= k then [] else Found(candles, k, n - 1) + One(candles, n - 1, k, High) + One(candles, n - 1, k, Low)
  }

  predicate PivotOrder(a: Pivot, b: Pivot) {
    a.time < b.time || (a.time == b.time && (a.kind == Low || b.kind == High))
  }

  lemma {:induction false} FoundTimes(candles: seq<Candle>, k: nat, n: nat)
    requires n <= |candles| && Ascending(candles)
    ensures forall p :: p in Pivots(candles, k, n) ==> n > 0 && p.time <= candles[n - 1].time
  {
    if n > k {
      FoundTimes(candles, k, n - 1);
      if n > 1 { assert candles[n - 2].time < candles[n - 1].time; }
    }
  }

  lemma {:induction false} SortSnoc(s: seq<Pivot>, x: Pivot)
    ensures Sorting.Sort(s + [x], PivotOrder) == Sorting.Insert(x, Sorting.Sort(s, PivotOrder), PivotOrder)
  {
    assert (s + [x])[..|s|] == s;
  }

  lemma {:induction false} AppendHigh(past: seq<Pivot>, before: seq<Pivot>, x: Pivot)
    requires Sorting.Sort(past, PivotOrder) == before && forall p :: p in before ==> PivotOrder(p, x)
    ensures Sorting.Sort(past + [x], PivotOrder) == before + [x]
  {
    SortSnoc(past, x);
    Sorting.InsertAbove(x, before, [], PivotOrder);
    assert before + [] == before;
    assert Sorting.Insert(x, [], PivotOrder) == [x];
  }

  lemma {:induction false} AppendLow(past: seq<Pivot>, before: seq<Pivot>, high: Pivot, x: Pivot)
    requires Sorting.Sort(past, PivotOrder) == before + [high] && forall p :: p in before ==> PivotOrder(p, x)
    requires !PivotOrder(high, x)
    ensures Sorting.Sort(past + [x], PivotOrder) == before + [x] + [high]
  {
    SortSnoc(past, x);
    Sorting.InsertBelow(x, before, [high], PivotOrder);
    Sorting.InsertAbove(x, before, [], PivotOrder);
    assert before + [] == before;
    assert Sorting.Insert(x, [], PivotOrder) == [x];
  }

  lemma {:induction false} SortBar(candles: seq<Candle>, k: nat, i: nat, past: seq<Pivot>, before: seq<Pivot>)
    requires i < |candles| && Sorting.Sort(past, PivotOrder) == before
    requires forall p :: p in before ==> p.time < candles[i].time
    ensures Sorting.Sort(past + One(candles, i, k, High) + One(candles, i, k, Low), PivotOrder)
            == before + One(candles, i, k, Low) + One(candles, i, k, High)
  {
    var high, low := PivotOf(candles[i], High), PivotOf(candles[i], Low);
    if PivotAt(candles, i, k, High) {
      AppendHigh(past, before, high);
      if PivotAt(candles, i, k, Low) {
        AppendLow(past + [high], before, high, low);
      } else {
        assert past + [high] + [] == past + [high] && before + [] + [high] == before + [high];
      }
    } else {
      assert past + [] == past;
      if PivotAt(candles, i, k, Low) {
        AppendHigh(past, before, low);
        assert before + [low] + [] == before + [low];
      } else {
        assert past + [] + [] == past && before + [] + [] == before;
      }
    }
  }

  /** Sorting what was found is the time-ordered list. */
  lemma {:induction false} SortedIsPivots(candles: seq<Candle>, k: nat, n: nat)
    requires n <= |candles| && Ascending(candles)
    ensures Sorting.Sort(Found(candles, k, n), PivotOrder) == Pivots(candles, k, n)
  {
    hide PivotAt, One, PivotOrder, Sorting.Insert;
    if n > k {
      SortedIsPivots(candles, k, n - 1);
      FoundTimes(candles, k, n - 1);
      if n > 1 { assert candles[n - 2].time < candles[n - 1].time; }
      SortBar(candles, k, n - 1, Found(candles, k, n - 1), Pivots(candles, k, n - 1));
    }
  }

  /** What `compute_pivots` returns: nothing below `2k + 1` bars. */
  ghost function PivotsOf(candles: seq<Candle>): seq<Pivot> {
    var n, k := |candles|, PivotWindow(|candles|);
    if n < 2 * k + 1 then [] else Pivots(candles, k, n - k)
  }

  lemma {:induction false} SortedIsPivotsOf(candles: seq<Candle>, n: nat, k: nat)
    requires Ascending(candles) && n == |candles| && k == PivotWindow(n) && n >= 2 * k + 1
    ensures Sorting.Sort(Found(candles, k, n - k), PivotOrder) == PivotsOf(candles)
  {
    hide PivotWindow, Pivots, Found, PivotOrder, Sorting.Sort;
    SortedIsPivots(candles, k, n - k);
  }

  method ComputePivots(candles: seq<Candle>) returns (pivots: seq<Pivot>)
    requires Ascending(candles)
    ensures pivots == PivotsOf(candles)
  {
    hide PivotAt, PivotOrder, Pivots, Sorting.Sort;
    var n := |candles|;
    var k := PivotWindow(n);
    if n < 2 * k + 1 {
      return [];
    }
    var found: seq<Pivot> := [];
    for i := k to n - k
      invariant found == Found(candles, k, i)
    {
      var high := IsPivotAt(candles, i, k, High);
      if high {
        found := found + [Pivot(candles[i].time, candles[i].high, High)];
      }
      assert found == Found(candles, k, i) + One(candles, i, k, High);
      var low := IsPivotAt(candles, i, k, Low);
      if low {
        found := found + [Pivot(candles[i].time, candles[i].low, Low)];
      }
      assert found == Found(candles, k, i) + One(candles, i, k, High) + One(candles, i, k, Low);
    }
    SortedIsPivotsOf(candles, n, k);
    return Sorting.Sort(found, PivotOrder);
  }

  // ---------------------------------------------------------------- spacing and windows

  /** Two pivots of one kind are always more than `k` bars apart, ties included. */
  lemma {:induction false} PivotsSpaced(candles: seq<Candle>, k: nat, kind: Kind, i: nat, j: nat)
    requires i < j && PivotAt(candles, i, k, kind) && PivotAt(candles, j, k, kind)
    ensures j - i > k
  {
    if j <= i + k {
      assert !Beats(candles, kind, j, i);
      assert Beats(candles, kind, i, j);
    }
  }

  /** The window is the least that is a fortieth of the candles, kept between 3 and 12. */
  lemma {:induction false} WindowIsFortieth(count: nat)
    ensures var k := PivotWindow(count);
            && 3 <= k <= 12 && (count <= 40 * k || k == 12) && (40 * (k - 1) < count || k == 3)
  {}

  lemma {:induction false} WindowNeverShrinks(m: nat, n: nat)
    requires m <= n
    ensures PivotWindow(m) <= PivotWindow(n)
  {
    assert (m + 39) / 40 <= (n + 39) / 40;
  }

  /** No bar of the ring between distances `k` and `wider` beats bar `i`. */
  ghost predicate RingClear(candles: seq<Candle>, i: nat, k: nat, wider: nat, kind: Kind) {
    wider <= i && i + wider < |candles|
    && forall j :: i - wider <= j <= i + wider && !(i - k <= j <= i + k) ==> !Beats(candles, kind, j, i)
  }

  /** A wider window keeps exactly the pivots whose outer ring is clear. */
  lemma {:induction false} WiderKeepsIff(candles: seq<Candle>, i: nat, k: nat, wider: nat, kind: Kind)
    requires k <= wider && PivotAt(candles, i, k, kind)
    ensures PivotAt(candles, i, wider, kind) <==> RingClear(candles, i, k, wider, kind)
  {}

  lemma {:induction false} WiderKeepsSubset(candles: seq<Candle>, i: nat, k: nat, wider: nat, kind: Kind)
    requires k <= wider && PivotAt(candles, i, wider, kind)
    ensures PivotAt(candles, i, k, kind)
  {}

  /** With the window fixed, appended candles leave every decided bar as it was. */
  lemma {:induction false} PivotStands(a: seq<Candle>, b: seq<Candle>, i: nat, k: nat, kind: Kind)
    requires i + k < |a|
    ensures PivotAt(a + b, i, k, kind) <==> PivotAt(a, i, k, kind)
  {
    assert forall j :: 0 <= j < |a| ==> (a + b)[j] == a[j];
    if k <= i {
      assert forall j :: i - k <= j <= i + k ==> Beats(a + b, kind, j, i) == Beats(a, kind, j, i);
    }
  }

  lemma {:induction false} PivotsPrefix(candles: seq<Candle>, k: nat, m: nat, n: nat)
    requires m <= n <= |candles|
    ensures Pivots(candles, k, m) <= Pivots(candles, k, n)
  {
    if m < n {
      PivotsPrefix(candles, k, m, n - 1);
      if n > k {
        var before := Pivots(candles, k, n - 1);
        assert Pivots(candles, k, n) == before + (One(candles, n - 1, k, Low) + One(candles, n - 1, k, High));
      }
    }
  }

  lemma {:induction false} PivotsEqual(a: seq<Candle>, b: seq<Candle>, k: nat, m: nat)
    requires m + k <= |a|
    ensures Pivots(a + b, k, m) == Pivots(a, k, m)
  {
    if m > k {
      PivotsEqual(a, b, k, m - 1);
      PivotStands(a, b, m - 1, k, High);
      PivotStands(a, b, m - 1, k, Low);
      assert (a + b)[m - 1] == a[m - 1];
    }
  }

  lemma {:induction false} PivotsAppend(a: seq<Candle>, b: seq<Candle>, k: nat, m: nat, n: nat)
    requires m <= n <= |a + b| && m + k <= |a|
    ensures Pivots(a, k, m) <= Pivots(a + b, k, n)
  {
    PivotsEqual(a, b, k, m);
    PivotsPrefix(a + b, k, m, n);
  }

  lemma {:induction false} PivotsOfIs(candles: seq<Candle>)
    ensures var n, k := |candles|, PivotWindow(|candles|);
            PivotsOf(candles) == if n < 2 * k + 1 then [] else Pivots(candles, k, n - k)
  {}

  /** While the window holds, new candles only append pivots. */
  lemma {:induction false} PivotsAppendOnly(a: seq<Candle>, b: seq<Candle>)
    requires PivotWindow(|a|) == PivotWindow(|a + b|)
    ensures PivotsOf(a) <= PivotsOf(a + b)
  {
    PivotsOfIs(a);
    PivotsOfIs(a + b);
    var k := PivotWindow(|a|);
    if |a| >= 2 * k + 1 { PivotsAppend(a, b, k, |a| - k, |a + b| - k); }
  }

  /** From candles to verdicts: while the window holds, every swing but the last is frozen and no
      strong or weak verdict is retracted. */
  lemma {:induction false} ReplaySafeWhileWindowHolds(a: seq<Candle>, b: seq<Candle>, tolerance: real, i: nat)
    requires PivotWindow(|a|) == PivotWindow(|a + b|)
    requires i < |StructureOf(PivotsOf(a), tolerance).swings|
    ensures var before, after := StructureOf(PivotsOf(a), tolerance).swings,
            StructureOf(PivotsOf(a + b), tolerance).swings;
            && StructureFacts.FrozenButLast(before, after)
            && (Strength.StrengthAt(before, i).strength != Strength.Unresolved ==>
                  i < |after| && Strength.StrengthAt(after, i) == Strength.StrengthAt(before, i))
  {
    PivotsAppendOnly(a, b);
    var p, all := PivotsOf(a), PivotsOf(a + b);
    var q := all[|p|..];
    assert all == p + q;
    StructureFacts.SwingsFrozen(p, q, tolerance);
    if Strength.StrengthAt(StructureOf(p, tolerance).swings, i).strength != Strength.Unresolved {
      Strength.VerdictNeverRetracted(p, q, tolerance, i);
    }
  }

  // ---------------------------------------------------------------- when the window grows

  lemma {:induction false} PivotMember(candles: seq<Candle>, k: nat, n: nat, i: nat, kind: Kind)
    requires n <= |candles| && Ascending(candles) && i < |candles|
    ensures PivotOf(candles[i], kind) in Pivots(candles, k, n) <==> k <= i < n && PivotAt(candles, i, k, kind)
  {
    if n > k {
      PivotMember(candles, k, n - 1, i, kind);
      assert i < n - 1 ==> candles[i].time < candles[n - 1].time;
      assert n - 1 < i ==> candles[n - 1].time < candles[i].time;
    }
  }

  /** A pivot survives appended candles exactly when the ring the grown window adds is clear of it. */
  lemma {:induction false} PivotRetainedIff(a: seq<Candle>, b: seq<Candle>, i: nat, kind: Kind)
    requires Ascending(a + b) && i < |a| && PivotOf(a[i], kind) in PivotsOf(a)
    ensures PivotOf(a[i], kind) in PivotsOf(a + b)
            <==> RingClear(a + b, i, PivotWindow(|a|), PivotWindow(|a + b|), kind)
  {
    var c, k, wider := a + b, PivotWindow(|a|), PivotWindow(|a + b|);
    assert Ascending(a) by { assert forall j :: 0 <= j < |a| ==> a[j] == c[j]; }
    assert c[i] == a[i];
    InPivotsOf(a, i, kind);
    InPivotsOf(c, i, kind);
    WindowNeverShrinks(|a|, |c|);
    PivotStands(a, b, i, k, kind);
    WiderKeepsIff(c, i, k, wider, kind);
  }

  /** A high that no bar before it within the window reaches and none after it exceeds. */
  ghost predicate TopsOut(candles: seq<Candle>, i: nat, k: nat) {
    && k <= i && i + k < |candles|
    && (forall j :: i - k <= j < i ==> candles[j].high < candles[i].high)
    && (forall j :: i < j <= i + k ==> candles[j].high <= candles[i].high)
  }

  ghost predicate BottomsOut(candles: seq<Candle>, i: nat, k: nat) {
    && k <= i && i + k < |candles|
    && (forall j :: i - k <= j < i ==> candles[i].low < candles[j].low)
    && (forall j :: i < j <= i + k ==> candles[i].low <= candles[j].low)
  }

  lemma {:induction false} PivotOnCandles(candles: seq<Candle>, i: nat, k: nat)
    ensures PivotAt(candles, i, k, High) <==> TopsOut(candles, i, k)
    ensures PivotAt(candles, i, k, Low) <==> BottomsOut(candles, i, k)
  {
    if k <= i && i + k < |candles| {
      assert forall j :: i - k <= j <= i + k && j != i ==>
        (Beats(candles, High, j, i) <==> candles[j].high > candles[i].high
                                         || (candles[j].high == candles[i].high && j < i));
      assert forall j :: i - k <= j <= i + k && j != i ==>
        (Beats(candles, Low, j, i) <==> candles[j].low < candles[i].low
                                        || (candles[j].low == candles[i].low && j < i));
    }
  }

  lemma {:induction false} OneMember(candles: seq<Candle>, i: nat, k: nat, kind: Kind, p: Pivot)
    requires i < |candles|
    ensures p in One(candles, i, k, kind)
            <==> p.kind == kind && PivotAt(candles, i, k, kind) && p == PivotOf(candles[i], kind)
  {
    hide PivotAt;
  }

  ghost predicate FromBar(candles: seq<Candle>, k: nat, p: Pivot, i: nat) {
    i < |candles| && PivotAt(candles, i, k, p.kind) && p == PivotOf(candles[i], p.kind)
  }

  ghost predicate FromBars(candles: seq<Candle>, k: nat, p: Pivot, n: nat) {
    exists i: nat :: k <= i < n && FromBar(candles, k, p, i)
  }

  lemma {:induction false} PivotFrom(candles: seq<Candle>, k: nat, n: nat, p: Pivot)
    requires n <= |candles|
    ensures p in Pivots(candles, k, n) <==> FromBars(candles, k, p, n)
  {
    if n > k {
      PivotFrom(candles, k, n - 1, p);
      BarMember(candles, k, n - 1, p);
      FromBarsGrow(candles, k, p, n);
      hide One, FromBar, FromBars;
      var last := One(candles, n - 1, k, Low) + One(candles, n - 1, k, High);
      assert Pivots(candles, k, n) == Pivots(candles, k, n - 1) + last;
    } else {
      assert Pivots(candles, k, n) == [];
    }
  }

  lemma {:induction false} FromBarsGrow(candles: seq<Candle>, k: nat, p: Pivot, n: nat)
    requires n > k
    ensures FromBars(candles, k, p, n) <==> FromBars(candles, k, p, n - 1) || FromBar(candles, k, p, n - 1)
  {
    hide FromBar;
    if FromBar(candles, k, p, n - 1) { assert FromBars(candles, k, p, n); }
  }

  lemma {:induction false} BarMember(candles: seq<Candle>, k: nat, i: nat, p: Pivot)
    requires i < |candles|
    ensures p in One(candles, i, k, Low) + One(candles, i, k, High) <==> FromBar(candles, k, p, i)
  {
    OneMember(candles, i, k, Low, p);
    OneMember(candles, i, k, High, p);
    hide PivotAt, PivotOf, One;
  }

  /** The pivot is bar `i`'s high, which tops out, or its low, which bottoms out. */
  ghost predicate TurnsAt(candles: seq<Candle>, i: nat, k: nat, p: Pivot) {
    && i < |candles| && p.time == candles[i].time
    && match p.kind
       case High => p.price == candles[i].high && TopsOut(candles, i, k)
       case Low => p.price == candles[i].low && BottomsOut(candles, i, k)
  }

  lemma {:induction false} TurnIff(candles: seq<Candle>, i: nat, k: nat, p: Pivot)
    ensures TurnsAt(candles, i, k, p) <==> FromBar(candles, k, p, i)
  {
    PivotOnCandles(candles, i, k);
    hide TopsOut, BottomsOut, PivotAt;
  }

  /** The list in candles: exactly the highs that top out and the lows that bottom out over the window. */
  lemma {:induction false} PivotsOnCandles(candles: seq<Candle>, p: Pivot)
    ensures p in PivotsOf(candles) <==> exists i: nat :: TurnsAt(candles, i, PivotWindow(|candles|), p)
  {
    var n, k := |candles|, PivotWindow(|candles|);
    forall i: nat
      ensures TurnsAt(candles, i, k, p) <==> FromBar(candles, k, p, i)
      ensures TurnsAt(candles, i, k, p) ==> k <= i < n - k
    {
      TurnIff(candles, i, k, p);
    }
    hide TurnsAt, FromBar, Pivots;
    if n >= 2 * k + 1 { PivotFrom(candles, k, n - k, p); }
  }

  lemma {:induction false} InPivotsOf(candles: seq<Candle>, i: nat, kind: Kind)
    requires Ascending(candles) && i < |candles|
    ensures PivotOf(candles[i], kind) in PivotsOf(candles) <==> PivotAt(candles, i, PivotWindow(|candles|), kind)
  {
    hide Pivots, PivotOf;
    var n, k := |candles|, PivotWindow(|candles|);
    if n >= 2 * k + 1 { PivotMember(candles, k, n - k, i, kind); }
  }

  /** The 120-bar series whose swing high at bar 60 is outdone four bars later. */
  function Spiked(n: nat): seq<Candle> {
    seq(n, i => Candle(i, 0.0, if i == 60 then 10.0 else if i == 64 then 11.0 else 1.0, 0.0, 0.0))
  }

  /** One more candle can erase a pivot: at 121 bars the window grows from 3 to 4 and the high at bar
      60 is gone. */
  lemma {:induction false} PivotCanVanish()
    ensures Ascending(Spiked(121)) && Spiked(121)[..120] == Spiked(120)
    ensures Pivot(60, 10.0, High) in PivotsOf(Spiked(120))
    ensures Pivot(60, 10.0, High) !in PivotsOf(Spiked(121))
  {
    var a, b := Spiked(120), Spiked(121);
    InPivotsOf(a, 60, High);
    InPivotsOf(b, 60, High);
    assert PivotAt(a, 60, 3, High);
    assert Beats(b, High, 64, 60);
  }
}
