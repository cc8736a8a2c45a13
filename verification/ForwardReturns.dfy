/** Forward returns and their insert-or-ignore store (backend/app/evidence/forward_returns.py, repo.py). */
module ForwardReturns {
  import opened Types
  import Sorting

  const FORWARD_RETURN_VERSION := "1.0.0"
  const BAR_SECONDS := 3600

  datatype Horizon = Horizon(name: string, bars: nat)

  const HORIZONS: seq<Horizon> :=
    [Horizon("1h", 1), Horizon("4h", 4), Horizon("12h", 12), Horizon("1d", 24), Horizon("3d", 72), Horizon("7d", 168)]

  datatype Row = Row(symbol: string, observedAt: int, horizon: string, horizonBars: nat, baseClose: real,
                     forwardClose: real, forwardReturn: real, version: string)

  /** The store's uniqueness constraint. */
  datatype Key = Key(symbol: string, observedAt: int, horizon: string, version: string)

  function KeyOf(r: Row): Key { Key(r.symbol, r.observedAt, r.horizon, r.version) }

  predicate ByBars(a: Horizon, b: Horizon) { a.bars <= b.bars }

  /** Horizons come as a dictionary: one entry per name. */
  ghost predicate Dictionary(items: seq<Horizon>) {
    forall a, b :: a in items && b in items && a.name == b.name ==> a == b
  }

  /** The product's own horizons are such a dictionary, all of them ahead of the bar. */
  lemma {:induction false} HorizonsAreAhead()
    ensures Dictionary(HORIZONS) && forall h :: h in HORIZONS ==> h.bars > 0
  {
    assert forall i, j :: 0 <= i < j < |HORIZONS| ==> HORIZONS[i].bars < HORIZONS[j].bars;
    assert HORIZONS[0].name == "1h" && HORIZONS[1].name == "4h" && HORIZONS[2].name == "12h";
    assert HORIZONS[3].name == "1d" && HORIZONS[4].name == "3d" && HORIZONS[5].name == "7d";
    assert "1h"[0] != "4h"[0] && "1h"[1] != "1d"[1] && |"12h"| == 3 && "4h"[0] != "3d"[0] && "3d"[0] != "7d"[0]
           && "1d"[0] != "7d"[0];
  }

  // ---------------------------------------------------------------- rows of a series

  /** The bar at `i` can be measured over `h`: its close is positive and the future close exists. */
  predicate Measurable(bars: seq<Candle>, i: nat, h: Horizon) {
    |bars| >= 2 && i + h.bars < |bars| && bars[i].close > 0.0
  }

  function RowOf(symbol: string, bars: seq<Candle>, i: nat, h: Horizon): Row
    requires Measurable(bars, i, h)
  {
    var base, forward := bars[i].close, bars[i + h.bars].close;
    Row(symbol, bars[i].time + BAR_SECONDS, h.name, h.bars, base, forward, forward / base - 1.0, FORWARD_RETURN_VERSION)
  }

  /** Rows of bar `i` over the first `j` horizons. */
  function RowsAt(symbol: string, bars: seq<Candle>, hs: seq<Horizon>, i: nat, j: nat): seq<Row>
    requires j <= |hs|
  {
    if j == 0 then []
    else RowsAt(symbol, bars, hs, i, j - 1)
         + if Measurable(bars, i, hs[j - 1]) then [RowOf(symbol, bars, i, hs[j - 1])] else []
  }

  function RowsUpTo(symbol: string, bars: seq<Candle>, hs: seq<Horizon>, n: nat): seq<Row> {
    if n == 0 then [] else RowsUpTo(symbol, bars, hs, n - 1) + RowsAt(symbol, bars, hs, n - 1, |hs|)
  }

  function RowsOf(symbol: string, bars: seq<Candle>, items: seq<Horizon>): seq<Row> {
    RowsUpTo(symbol, bars, Sorting.Sort(items, ByBars), |bars|)
  }

  lemma {:induction false} UnmeasurableBar(symbol: string, bars: seq<Candle>, hs: seq<Horizon>, i: nat, j: nat)
    requires j <= |hs| && forall h :: !Measurable(bars, i, h)
    ensures RowsAt(symbol, bars, hs, i, j) == []
  {
    if j > 0 { UnmeasurableBar(symbol, bars, hs, i, j - 1); }
  }

  lemma {:induction false} ShortSeriesHasNoRows(symbol: string, bars: seq<Candle>, hs: seq<Horizon>, n: nat)
    requires |bars| < 2
    ensures RowsUpTo(symbol, bars, hs, n) == []
  {
    if n > 0 {
      ShortSeriesHasNoRows(symbol, bars, hs, n - 1);
      UnmeasurableBar(symbol, bars, hs, n - 1, |hs|);
    }
  }

  method ComputeForwardReturns(symbol: string, bars: seq<Candle>, items: seq<Horizon>) returns (rows: seq<Row>)
    ensures rows == RowsOf(symbol, bars, items)
  {
    if |bars| < 2 {
      ShortSeriesHasNoRows(symbol, bars, Sorting.Sort(items, ByBars), |bars|);
      return [];
    }
    var hs := Sorting.Sort(items, ByBars);
    rows := [];
    for i := 0 to |bars|
      invariant rows == RowsUpTo(symbol, bars, hs, i)
    {
      var base := bars[i].close;
      if base <= 0.0 {
        UnmeasurableBar(symbol, bars, hs, i, |hs|);
        continue;
      }
      ghost var before := rows;
      for j := 0 to |hs|
        invariant rows == before + RowsAt(symbol, bars, hs, i, j)
      {
        var target := i + hs[j].bars;
        if target < |bars| {
          var forward := bars[target].close;
          rows := rows + [Row(symbol, bars[i].time + BAR_SECONDS, hs[j].name, hs[j].bars, base, forward,
                              forward / base - 1.0, FORWARD_RETURN_VERSION)];
        }
      }
    }
  }

  // ---------------------------------------------------------------- exactly the measurable pairs

  ghost predicate Measured(r: Row, symbol: string, bars: seq<Candle>, items: seq<Horizon>) {
    exists i: nat, h :: h in items && Measurable(bars, i, h) && r == RowOf(symbol, bars, i, h)
  }

  lemma {:induction false} RowsAtMeaning(r: Row, symbol: string, bars: seq<Candle>, hs: seq<Horizon>, i: nat, j: nat)
    requires j <= |hs|
    ensures r in RowsAt(symbol, bars, hs, i, j)
            <==> exists k :: 0 <= k < j && Measurable(bars, i, hs[k]) && r == RowOf(symbol, bars, i, hs[k])
  {
    if j > 0 { RowsAtMeaning(r, symbol, bars, hs, i, j - 1); }
  }

  lemma {:induction false} RowsUpToMeaning(r: Row, symbol: string, bars: seq<Candle>, hs: seq<Horizon>, n: nat)
    ensures r in RowsUpTo(symbol, bars, hs, n)
            <==> exists i: nat, k: nat ::
                   && i < n && k < |hs| && Measurable(bars, i, hs[k])
                   && r == RowOf(symbol, bars, i, hs[k])
  {
    hide RowOf, RowsAt, Measurable;
    if n > 0 {
      RowsUpToMeaning(r, symbol, bars, hs, n - 1);
      RowsAtMeaning(r, symbol, bars, hs, n - 1, |hs|);
    }
  }

  /** A row exists exactly when its bar is measurable over its horizon: every one derivable, and not one more. */
  lemma {:induction false} RowsMeaning(r: Row, symbol: string, bars: seq<Candle>, items: seq<Horizon>)
    ensures r in RowsOf(symbol, bars, items) <==> Measured(r, symbol, bars, items)
  {
    var hs := Sorting.Sort(items, ByBars);
    Sorting.SortKeeps(items, ByBars);
    RowsUpToMeaning(r, symbol, bars, hs, |bars|);
    if r in RowsOf(symbol, bars, items) {
      var i: nat, k: nat :| i < |bars| && k < |hs| && Measurable(bars, i, hs[k]) && r == RowOf(symbol, bars, i, hs[k]);
      assert hs[k] in items;
    }
    if Measured(r, symbol, bars, items) {
      var i: nat, h :| h in items && Measurable(bars, i, h) && r == RowOf(symbol, bars, i, h);
      assert h in hs;
    }
  }

  /** The row of the bar at `i` over `h`, in candles: stamped at that bar's close, from its close to the close `h.bars`
      later, as a return on the first. */
  ghost predicate RowOnCandles(r: Row, symbol: string, bars: seq<Candle>, i: nat, h: Horizon) {
    && |bars| >= 2 && i + h.bars < |bars| && bars[i].close > 0.0
    && r.symbol == symbol && r.horizon == h.name && r.horizonBars == h.bars
    && r.observedAt == bars[i].time + BAR_SECONDS
    && r.baseClose == bars[i].close && r.forwardClose == bars[i + h.bars].close
    && r.forwardReturn * r.baseClose == r.forwardClose - r.baseClose && r.version == FORWARD_RETURN_VERSION
  }

  lemma {:induction false} OneReturn(base: real, forward: real, ret: real)
    requires base > 0.0
    ensures ret * base == forward - base <==> ret == forward / base - 1.0
  {
    var ratio := forward / base;
    assert ratio * base == forward;
    ReturnTimes(base, forward, ratio, ret);
  }

  lemma {:induction false} ReturnTimes(base: real, forward: real, ratio: real, ret: real)
    requires base > 0.0 && ratio * base == forward
    ensures ret * base == forward - base <==> ret == ratio - 1.0
  {
    var off := ret - ratio + 1.0;
    assert off * base == ret * base - ratio * base + base;
    assert off > 0.0 ==> off * base > 0.0;
    assert off < 0.0 ==> off * base < 0.0;
  }

  lemma {:induction false} RowIs(r: Row, symbol: string, bars: seq<Candle>, i: nat, h: Horizon)
    ensures RowOnCandles(r, symbol, bars, i, h) <==> Measurable(bars, i, h) && r == RowOf(symbol, bars, i, h)
  {
    if Measurable(bars, i, h) { OneReturn(bars[i].close, bars[i + h.bars].close, r.forwardReturn); }
  }

  /** The rows emitted are exactly these. */
  lemma {:induction false} RowsOnCandles(r: Row, symbol: string, bars: seq<Candle>, items: seq<Horizon>)
    ensures r in RowsOf(symbol, bars, items) <==> exists i: nat, h :: h in items && RowOnCandles(r, symbol, bars, i, h)
  {
    RowsMeaning(r, symbol, bars, items);
    forall i: nat, h
      ensures RowOnCandles(r, symbol, bars, i, h) <==> Measurable(bars, i, h) && r == RowOf(symbol, bars, i, h) {
      RowIs(r, symbol, bars, i, h);
    }
    hide RowOnCandles, Measurable, RowOf, RowsOf;
  }

  ghost predicate InOrder(rows: seq<Row>) {
    forall a, b :: 0 <= a < b < |rows| ==>
      rows[a].observedAt < rows[b].observedAt
        || (rows[a].observedAt == rows[b].observedAt && rows[a].horizonBars <= rows[b].horizonBars)
  }

  ghost predicate RowsReach(rows: seq<Row>, observedAt: int, hs: seq<Horizon>, j: nat)
    requires j <= |hs|
  {
    forall r :: r in rows ==> r.observedAt == observedAt && exists k :: 0 <= k < j && r.horizonBars == hs[k].bars
  }

  lemma {:induction false} AppendedRow(rows: seq<Row>, row: Row, hs: seq<Horizon>, j: nat)
    requires j < |hs| && Sorting.Sorted(hs, ByBars) && row.horizonBars == hs[j].bars
    requires InOrder(rows) && RowsReach(rows, row.observedAt, hs, j)
    ensures InOrder(rows + [row]) && RowsReach(rows + [row], row.observedAt, hs, j + 1)
  {
    forall r | r in rows ensures r.horizonBars <= row.horizonBars {
      var k :| 0 <= k < j && r.horizonBars == hs[k].bars;
      assert ByBars(hs[k], hs[j]);
    }
    forall a | 0 <= a < |rows| ensures rows[a].observedAt == row.observedAt && rows[a].horizonBars <= row.horizonBars {
      assert rows[a] in rows;
    }
  }

  lemma {:induction false} RowsAtInOrder(symbol: string, bars: seq<Candle>, hs: seq<Horizon>, i: nat, j: nat)
    requires j <= |hs| && i < |bars| && Sorting.Sorted(hs, ByBars)
    ensures InOrder(RowsAt(symbol, bars, hs, i, j))
    ensures RowsReach(RowsAt(symbol, bars, hs, i, j), bars[i].time + BAR_SECONDS, hs, j)
  {
    if j > 0 {
      RowsAtInOrder(symbol, bars, hs, i, j - 1);
      if Measurable(bars, i, hs[j - 1]) {
        AppendedRow(RowsAt(symbol, bars, hs, i, j - 1), RowOf(symbol, bars, i, hs[j - 1]), hs, j - 1);
      }
      hide Measurable, RowOf, InOrder, Sorting.Sorted;
    }
  }

  /** Rows come by bar, then by horizon length. */
  lemma {:induction false} RowsInOrder(symbol: string, bars: seq<Candle>, hs: seq<Horizon>, n: nat)
    requires Ascending(bars) && n <= |bars| && Sorting.Sorted(hs, ByBars)
    ensures InOrder(RowsUpTo(symbol, bars, hs, n))
    ensures forall r :: r in RowsUpTo(symbol, bars, hs, n) ==>
            exists i :: 0 <= i < n && r.observedAt == bars[i].time + BAR_SECONDS
  {
    hide RowsAt, Measurable;
    if n > 0 {
      RowsInOrder(symbol, bars, hs, n - 1);
      RowsAtInOrder(symbol, bars, hs, n - 1, |hs|);
      var before, last := RowsUpTo(symbol, bars, hs, n - 1), RowsAt(symbol, bars, hs, n - 1, |hs|);
      forall a, b | 0 <= a < |before| && 0 <= b < |last| ensures before[a].observedAt < last[b].observedAt {
        assert before[a] in before && last[b] in last;
      }
    }
  }

  /** The emitted order is by bar, then horizon length, and each return reproduces its future close. */
  lemma {:induction false} RowsOrderedAndExact(symbol: string, bars: seq<Candle>, items: seq<Horizon>)
    requires Ascending(bars)
    ensures InOrder(RowsOf(symbol, bars, items))
    ensures forall r :: r in RowsOf(symbol, bars, items) ==>
            r.baseClose > 0.0 && r.forwardClose == r.baseClose * (1.0 + r.forwardReturn)
  {
    assert Sorting.TotalPreorder(ByBars);
    hide Sorting.Sort, RowsUpTo, ByBars;
    Sorting.SortSorted(items, ByBars);
    RowsInOrder(symbol, bars, Sorting.Sort(items, ByBars), |bars|);
    forall r | r in RowsOf(symbol, bars, items)
      ensures r.baseClose > 0.0 && r.forwardClose == r.baseClose * (1.0 + r.forwardReturn)
    {
      RowsMeaning(r, symbol, bars, items);
      var i: nat, h :| h in items && Measurable(bars, i, h) && r == RowOf(symbol, bars, i, h);
      Reproduces(r.baseClose, r.forwardClose);
    }
  }

  lemma {:induction false} Reproduces(base: real, forward: real)
    requires base > 0.0
    ensures base * (1.0 + (forward / base - 1.0)) == forward
  {
    var ratio := forward / base;
    assert ratio * base == forward;
    assert 1.0 + (ratio - 1.0) == ratio;
  }

  /** No lookahead and no invention: a row of any contiguous window is the same row of the whole series. */
  lemma {:induction false} WindowRowsAreRows(r: Row, symbol: string, bars: seq<Candle>, items: seq<Horizon>, lo: nat,
                                             hi: nat)
    requires lo <= hi <= |bars|
    ensures Measured(r, symbol, bars[lo..hi], items)
            <==> hi - lo >= 2
                 && exists i: nat, h ::
                      && h in items && Measurable(bars, i, h) && r == RowOf(symbol, bars, i, h)
                      && lo <= i && i + h.bars < hi
  {
    var window := bars[lo..hi];
    if Measured(r, symbol, window, items) {
      var i: nat, h :| h in items && Measurable(window, i, h) && r == RowOf(symbol, window, i, h);
      assert Measurable(bars, lo + i, h) && r == RowOf(symbol, bars, lo + i, h);
    }
    if hi - lo >= 2 {
      forall i: nat, h | h in items && Measurable(bars, i, h) && r == RowOf(symbol, bars, i, h)
                            && lo <= i && i + h.bars < hi
        ensures Measured(r, symbol, window, items)
      {
        assert window[i - lo] == bars[i] && window[i - lo + h.bars] == bars[i + h.bars];
        assert Measurable(window, i - lo, h) && r == RowOf(symbol, window, i - lo, h);
      }
    }
  }

  /** Keys never collide: within a series with ascending times, a key names one row. */
  lemma {:induction false} KeyNamesOneRow(r: Row, q: Row, bars: seq<Candle>, items: seq<Horizon>)
    requires Ascending(bars) && Dictionary(items)
    requires Measured(r, r.symbol, bars, items) && Measured(q, q.symbol, bars, items) && KeyOf(r) == KeyOf(q)
    ensures r == q
  {
    var i: nat, h :| h in items && Measurable(bars, i, h) && r == RowOf(r.symbol, bars, i, h);
    var j: nat, g :| g in items && Measurable(bars, j, g) && q == RowOf(q.symbol, bars, j, g);
    assert bars[i].time == bars[j].time;
  }

  // ---------------------------------------------------------------- the store

  function Stored(table: map<Key, Row>, rows: seq<Row>): map<Key, Row> {
    if |rows| == 0 then table
    else
      var before, r := Stored(table, rows[..|rows| - 1]), rows[|rows| - 1];
      if KeyOf(r) in before then before else before[KeyOf(r) := r]
  }

  predicate Has(table: map<Key, Row>, r: Row) { KeyOf(r) in table && table[KeyOf(r)] == r }

  class ForwardReturnStore {
    var table: map<Key, Row>

    constructor ()
      ensures table == map[]
    {
      table := map[];
    }

    /** Insert or ignore; reports how many rows were actually new. */
    method Insert(rows: seq<Row>) returns (added: nat)
      modifies this
      ensures table == Stored(old(table), rows)
      ensures |table| == |old(table)| + added
    {
      added := 0;
      for n := 0 to |rows|
        invariant table == Stored(old(table), rows[..n])
        invariant |table| == |old(table)| + added
      {
        assert rows[..n + 1][..n] == rows[..n];
        if KeyOf(rows[n]) !in table {
          table := table[KeyOf(rows[n]) := rows[n]];
          added := added + 1;
        }
      }
      assert rows[..|rows|] == rows;
    }
  }

  /** A stored row never changes, and what is new is one of the offered rows under its own key. */
  lemma {:induction false} StoredMeaning(table: map<Key, Row>, rows: seq<Row>)
    ensures var after := Stored(table, rows);
            && (forall k :: k in after <==> k in table || exists r :: r in rows && KeyOf(r) == k)
            && (forall k :: k in table ==> after[k] == table[k])
            && (forall k :: k in after && k !in table ==> after[k] in rows && KeyOf(after[k]) == k)
  {
    if |rows| > 0 {
      var init, r := rows[..|rows| - 1], rows[|rows| - 1];
      StoredMeaning(table, init);
      assert rows == init + [r];
    }
  }

  // ---------------------------------------------------------------- passes over overlapping windows

  /** One pass: the window `[lo, hi)` of one symbol's series is measured and inserted. */
  datatype Visit = Visit(symbol: string, lo: nat, hi: nat)

  ghost predicate Fits(v: Visit, market: map<string, seq<Candle>>) {
    v.symbol in market && v.lo <= v.hi <= |market[v.symbol]|
  }

  ghost predicate AllFit(visits: seq<Visit>, market: map<string, seq<Candle>>) {
    forall i :: 0 <= i < |visits| ==> Fits(visits[i], market)
  }

  ghost function Window(v: Visit, market: map<string, seq<Candle>>): seq<Candle>
    requires Fits(v, market)
  {
    market[v.symbol][v.lo..v.hi]
  }

  ghost predicate GoodMarket(market: map<string, seq<Candle>>) {
    forall s :: s in market ==> Ascending(market[s])
  }

  ghost function After(market: map<string, seq<Candle>>, items: seq<Horizon>, visits: seq<Visit>): map<Key, Row>
    requires AllFit(visits, market)
  {
    if |visits| == 0 then map[]
    else
      var v := visits[|visits| - 1];
      Stored(After(market, items, visits[..|visits| - 1]), RowsOf(v.symbol, Window(v, market), items))
  }

  /** Some visit's window held both the base bar and the future bar of the row. */
  ghost predicate Seen(r: Row, market: map<string, seq<Candle>>, items: seq<Horizon>, visits: seq<Visit>)
    requires AllFit(visits, market)
  {
    exists n :: 0 <= n < |visits| && Measured(r, visits[n].symbol, Window(visits[n], market), items)
  }

  /** The table after any visits, in any order and with any repetition, is exactly the seen rows by key. */
  ghost predicate Exact(table: map<Key, Row>, market: map<string, seq<Candle>>, items: seq<Horizon>, visits: seq<Visit>)
    requires AllFit(visits, market)
  {
    && (forall k :: k in table ==> KeyOf(table[k]) == k)
    && (forall r :: Seen(r, market, items, visits) <==> Has(table, r))
  }

  lemma {:induction false} SeenIsMeasured(r: Row, market: map<string, seq<Candle>>, items: seq<Horizon>,
                                          visits: seq<Visit>)
    requires AllFit(visits, market)
    requires Seen(r, market, items, visits)
    ensures r.symbol in market && Measured(r, r.symbol, market[r.symbol], items)
  {
    var n :| 0 <= n < |visits| && Measured(r, visits[n].symbol, Window(visits[n], market), items);
    var v := visits[n];
    WindowRowsAreRows(r, v.symbol, market[v.symbol], items, v.lo, v.hi);
  }

  lemma {:induction false} SeenAppend(r: Row, market: map<string, seq<Candle>>, items: seq<Horizon>, init: seq<Visit>,
                                      v: Visit)
    requires AllFit(init + [v], market) && AllFit(init, market) && Fits(v, market)
    ensures Seen(r, market, items, init + [v])
            <==> Seen(r, market, items, init) || r in RowsOf(v.symbol, Window(v, market), items)
  {
    RowsMeaning(r, v.symbol, Window(v, market), items);
    var visits := init + [v];
    assert visits[|init|] == v;
    if Seen(r, market, items, init) { SeenByMore(r, market, items, init, visits); }
    if Seen(r, market, items, visits) {
      var n :| 0 <= n < |visits| && Measured(r, visits[n].symbol, Window(visits[n], market), items);
      assert n < |init| ==> visits[n] == init[n];
    }
  }

  lemma {:induction false} StoreIsExact(market: map<string, seq<Candle>>, items: seq<Horizon>, visits: seq<Visit>)
    requires GoodMarket(market) && Dictionary(items)
    requires AllFit(visits, market)
    ensures Exact(After(market, items, visits), market, items, visits)
  {
    if |visits| > 0 {
      var init, v := visits[..|visits| - 1], visits[|visits| - 1];
      assert visits == init + [v];
      StoreIsExact(market, items, init);
      var before, rows := After(market, items, init), RowsOf(v.symbol, Window(v, market), items);
      StoredMeaning(before, rows);
      var table := Stored(before, rows);
      forall r ensures Seen(r, market, items, visits) <==> Has(table, r) {
        SeenAppend(r, market, items, init, v);
        if KeyOf(r) in table {
          var kept := table[KeyOf(r)];
          SeenAppend(kept, market, items, init, v);
          assert KeyOf(r) in before ==> Has(before, kept);
          if Seen(r, market, items, visits) {
            SeenIsMeasured(r, market, items, visits);
            SeenIsMeasured(kept, market, items, visits);
            KeyNamesOneRow(r, kept, market[r.symbol], items);
          }
        }
      }
    }
  }

  /** Every base/future pair of every series lies in some window. */
  ghost predicate Covered(market: map<string, seq<Candle>>, items: seq<Horizon>, visits: seq<Visit>) {
    forall s, i: nat, h :: s in market && h in items && Measurable(market[s], i, h) ==>
      exists v :: v in visits && v.symbol == s && v.lo <= i && i + h.bars < v.hi
  }

  /** Once each pair is covered the table is exactly the full row set; visits in any order agree. */
  lemma {:induction false} CoveredIsComplete(market: map<string, seq<Candle>>, items: seq<Horizon>, visits: seq<Visit>)
    requires GoodMarket(market) && Dictionary(items) && forall h :: h in items ==> h.bars > 0
    requires AllFit(visits, market)
    requires Covered(market, items, visits)
    ensures var table := After(market, items, visits);
            && (forall k :: k in table ==> KeyOf(table[k]) == k)
            && (forall r :: Has(table, r) <==> r.symbol in market && r in RowsOf(r.symbol, market[r.symbol], items))
  {
    StoreIsExact(market, items, visits);
    forall r ensures Seen(r, market, items, visits)
      <==> r.symbol in market && r in RowsOf(r.symbol, market[r.symbol], items) {
      if Seen(r, market, items, visits) { SeenIsMeasured(r, market, items, visits); }
      if r.symbol in market {
        var bars := market[r.symbol];
        RowsMeaning(r, r.symbol, bars, items);
        if Measured(r, r.symbol, bars, items) {
          var i: nat, h :| h in items && Measurable(bars, i, h) && r == RowOf(r.symbol, bars, i, h);
          var v :| v in visits && v.symbol == r.symbol && v.lo <= i && i + h.bars < v.hi;
          WindowRowsAreRows(r, r.symbol, bars, items, v.lo, v.hi);
        }
      }
    }
  }

  lemma {:induction false} SeenByMore(r: Row, market: map<string, seq<Candle>>, items: seq<Horizon>, visits: seq<Visit>,
                                      others: seq<Visit>)
    requires AllFit(visits, market) && AllFit(others, market) && forall v :: v in visits ==> v in others
    requires Seen(r, market, items, visits)
    ensures Seen(r, market, items, others)
  {
    var n :| 0 <= n < |visits| && Measured(r, visits[n].symbol, Window(visits[n], market), items);
    assert visits[n] in others;
    var m :| 0 <= m < |others| && others[m] == visits[n];
  }

  lemma {:induction false} TableIsItsRows(a: map<Key, Row>, b: map<Key, Row>)
    requires forall k :: k in a ==> KeyOf(a[k]) == k
    requires forall r :: Has(a, r) ==> Has(b, r)
    ensures forall k :: k in a ==> k in b && b[k] == a[k]
  {
    forall k | k in a ensures k in b && b[k] == a[k] { assert Has(a, a[k]); }
  }

  /** Two runs over the same windows leave the same table, whatever their order and repetitions. */
  lemma {:induction false} OrderIsIrrelevant(market: map<string, seq<Candle>>, items: seq<Horizon>, visits: seq<Visit>,
                                             others: seq<Visit>)
    requires GoodMarket(market) && Dictionary(items)
    requires AllFit(visits, market) && AllFit(others, market)
    requires forall v :: v in visits <==> v in others
    ensures After(market, items, visits) == After(market, items, others)
  {
    StoreIsExact(market, items, visits);
    StoreIsExact(market, items, others);
    var a, b := After(market, items, visits), After(market, items, others);
    forall r ensures Has(a, r) <==> Has(b, r) {
      if Seen(r, market, items, visits) { SeenByMore(r, market, items, visits, others); }
      if Seen(r, market, items, others) { SeenByMore(r, market, items, others, visits); }
    }
    TableIsItsRows(a, b);
    TableIsItsRows(b, a);
  }
}
