/** Base zones (engine/smc/zones.py): the rolling ATR, a zone's life, and which zones are kept. */
module Zones {
  import opened Types
  import Sorting

  // ---------------------------------------------------------------- average true range

  function TrueRange(candles: seq<Candle>, i: nat): real
    requires i < |candles|
  {
    var c := candles[i];
    var prev := if i > 0 then candles[i - 1].close else c.close;
    Max(Max(c.high - c.low, Abs(c.high - prev)), Abs(c.low - prev))
  }

  /** The whole way price went since the last close: from the lower of that close and the low to the higher of it
      and the high. */
  lemma {:induction false} TrueRangeSpans(candles: seq<Candle>, i: nat)
    requires i < |candles| && candles[i].low <= candles[i].high
    requires i == 0 ==> candles[0].low <= candles[0].close <= candles[0].high
    ensures var c := candles[i];
            var from := if i == 0 then c.close else candles[i - 1].close;
            TrueRange(candles, i)
            == (if from > c.high then from else c.high) - (if from < c.low then from else c.low)
  {}

  function TotalRange(candles: seq<Candle>, lo: nat, hi: nat): real
    requires lo <= hi <= |candles|
  {
    if lo == hi then 0.0 else TotalRange(candles, lo, hi - 1) + TrueRange(candles, hi - 1)
  }

  /** The mean of the `length` true ranges ending at bar `i`, once there are that many. */
  function MeanRange(candles: seq<Candle>, length: nat, i: nat): Option<real>
    requires length > 0 && i < |candles|
  {
    if i + 1 < length then None else Some(TotalRange(candles, i + 1 - length, i + 1) / length as real)
  }

  /** Times `length` it is the total of the last `length` ranges, the first of them at bar `i - length + 1`. */
  lemma {:induction false} MeanOfLast(candles: seq<Candle>, length: nat, i: nat)
    requires length > 0 && i < |candles|
    ensures var mean := MeanRange(candles, length, i);
            && (mean.Some? <==> length <= i + 1)
            && (mean.Some? ==> mean.value * length as real == TotalRange(candles, i - length + 1, i + 1))
  {
    hide TotalRange;
    if length <= i + 1 { Undivided(TotalRange(candles, i + 1 - length, i + 1), length as real); }
  }

  lemma {:induction false} Undivided(x: real, k: real)
    requires k > 0.0
    ensures x / k * k == x
  {}

  lemma {:induction false} DropOldest(candles: seq<Candle>, lo: nat, hi: nat)
    requires lo < hi <= |candles|
    ensures TotalRange(candles, lo, hi) == TrueRange(candles, lo) + TotalRange(candles, lo + 1, hi)
  {
    if lo + 1 < hi { DropOldest(candles, lo, hi - 1); }
  }

  /** The add-and-subtract running total is the plain mean of the last `length` true ranges, present
      exactly once `length` bars exist. */
  method AtrSeries(candles: seq<Candle>, length: nat) returns (out: array<Option<real>>)
    requires length > 0
    ensures fresh(out) && out.Length == |candles|
    ensures forall i :: 0 <= i < |candles| ==> out[i] == MeanRange(candles, length, i)
  {
    hide Max, Abs;
    out := new Option<real>[|candles|](_ => None);
    var total := 0.0;
    for i := 0 to |candles|
      invariant total == TotalRange(candles, if i < length then 0 else i - length, i)
      invariant forall j :: 0 <= j < i ==> out[j] == MeanRange(candles, length, j)
      invariant forall j :: i <= j < |candles| ==> out[j] == None
    {
      var c := candles[i];
      var prev := if i > 0 then candles[i - 1].close else c.close;
      total := total + Max(Max(c.high - c.low, Abs(c.high - prev)), Abs(c.low - prev));
      if i >= length {
        var first := candles[i - length];
        var firstPrev := if i - length > 0 then candles[i - length - 1].close else first.close;
        DropOldest(candles, i - length, i + 1);
        total := total - Max(Max(first.high - first.low, Abs(first.high - firstPrev)), Abs(first.low - firstPrev));
      }
      if i + 1 >= length {
        out[i] := Some(total / length as real);
      }
    }
  }

  // ---------------------------------------------------------------- the life of a zone

  datatype ZoneKind = Demand | Supply
  datatype Freshness = Fresh | Tested

  datatype BaseZone = BaseZone(kind: ZoneKind, priceLow: real, priceHigh: real, startTime: int, endTime: int,
                               freshness: Freshness)

  predicate TradedThrough(kind: ZoneKind, low: real, high: real, c: Candle) {
    if kind == Demand then c.close < low else c.close > high
  }

  predicate Touching(kind: ZoneKind, low: real, high: real, c: Candle) {
    if kind == Demand then c.low <= high else c.high >= low
  }

  /** How often price came back: bars that touch after a bar that did not. Contact on the first bar is
      part of forming. */
  function Revisits(kind: ZoneKind, low: real, high: real, after: seq<Candle>): nat {
    var n := |after|;
    if n <= 1 then 0
    else Revisits(kind, low, high, after[..n - 1])
         + if Touching(kind, low, high, after[n - 1]) && !Touching(kind, low, high, after[n - 2]) then 1 else 0
  }

  ghost predicate Dead(kind: ZoneKind, low: real, high: real, after: seq<Candle>) {
    (exists k :: 0 <= k < |after| && TradedThrough(kind, low, high, after[k])) || Revisits(kind, low, high, after) >= 2
  }

  /** The zone's state after the bars that followed its departure; None is dead. */
  ghost function Life(kind: ZoneKind, low: real, high: real, after: seq<Candle>): Option<Freshness> {
    if Dead(kind, low, high, after) then None
    else if Revisits(kind, low, high, after) == 0 then Some(Fresh) else Some(Tested)
  }

  lemma {:induction false} RevisitedStays(kind: ZoneKind, low: real, high: real, after: seq<Candle>, m: nat)
    requires m <= |after| && Revisits(kind, low, high, after[..m]) >= 2
    ensures Life(kind, low, high, after) == None
  {
    assert after == after[..m] + after[m..];
    RevisitsGrow(kind, low, high, after[..m], after[m..]);
  }

  method ZoneFreshness(candles: seq<Candle>, fromIndex: nat, kind: ZoneKind, low: real, high: real)
    returns (freshness: Option<Freshness>)
    requires fromIndex <= |candles|
    ensures freshness == Life(kind, low, high, candles[fromIndex..])
  {
    var touches, inside := 0, true;
    ghost var after := candles[fromIndex..];
    for k := fromIndex to |candles|
      invariant touches == Revisits(kind, low, high, after[..k - fromIndex]) <= 1
      invariant inside == (k == fromIndex || Touching(kind, low, high, candles[k - 1]))
      invariant forall j :: 0 <= j < k - fromIndex ==> !TradedThrough(kind, low, high, after[j])
    {
      var c := candles[k];
      ghost var n := k - fromIndex;
      assert after[n] == c && after[..n + 1][..n] == after[..n];
      if (if kind == Demand then c.close < low else c.close > high) {
        return None;
      }
      var touching := if kind == Demand then c.low <= high else c.high >= low;
      assert n > 0 ==> after[n - 1] == candles[k - 1];
      if touching && !inside {
        touches := touches + 1;
        if touches >= 2 {
          RevisitedStays(kind, low, high, after, n + 1);
          return None;
        }
      }
      inside := touching;
    }
    assert after[..|candles| - fromIndex] == after;
    return if touches == 0 then Some(Fresh) else Some(Tested);
  }

  lemma {:induction false} RevisitsGrow(kind: ZoneKind, low: real, high: real, a: seq<Candle>, b: seq<Candle>)
    ensures Revisits(kind, low, high, a) <= Revisits(kind, low, high, a + b)
    decreases |b|
  {
    if |b| == 0 {
      assert a + b == a;
    } else {
      RevisitsGrow(kind, low, high, a, b[..|b| - 1]);
      assert (a + b)[..|a + b| - 1] == a + b[..|b| - 1];
    }
  }

  /** Price is back at the zone: down to demand, up to supply. */
  ghost predicate Contact(kind: ZoneKind, low: real, high: real, c: Candle) {
    match kind case Demand => c.low <= high case Supply => low <= c.high
  }

  /** Bar `k` comes back to the zone from outside it. */
  ghost predicate ComesBack(kind: ZoneKind, low: real, high: real, after: seq<Candle>, k: int) {
    1 <= k < |after| && Contact(kind, low, high, after[k]) && !Contact(kind, low, high, after[k - 1])
  }

  /** The revisits counted are exactly the bars that come back. */
  lemma {:induction false} RevisitsInOrder(kind: ZoneKind, low: real, high: real, after: seq<Candle>)
    returns (at: seq<int>)
    ensures |at| == Revisits(kind, low, high, after)
    ensures forall i, j :: 0 <= i < j < |at| ==> at[i] < at[j]
    ensures forall k :: k in at <==> ComesBack(kind, low, high, after, k)
  {
    var n := |after| - 1;
    if n <= 0 {
      at := [];
    } else {
      var init := after[..n];
      var before := RevisitsInOrder(kind, low, high, init);
      assert ComesBack(kind, low, high, after, n)
        <==> Touching(kind, low, high, after[n]) && !Touching(kind, low, high, after[n - 1]);
      forall k ensures ComesBack(kind, low, high, init, k) <==> k < n && ComesBack(kind, low, high, after, k) {}
      hide Contact, Touching;
      at := before + if ComesBack(kind, low, high, after, n) then [n] else [];
      forall i | 0 <= i < |before| ensures before[i] < n { assert before[i] in before; }
      assert forall k :: ComesBack(kind, low, high, after, k) ==> k <= n;
    }
  }

  ghost predicate ComesBackTwice(kind: ZoneKind, low: real, high: real, after: seq<Candle>) {
    exists a, b :: a < b && ComesBack(kind, low, high, after, a) && ComesBack(kind, low, high, after, b)
  }

  lemma {:induction false} RevisitCounts(kind: ZoneKind, low: real, high: real, after: seq<Candle>)
    ensures Revisits(kind, low, high, after) >= 2 <==> ComesBackTwice(kind, low, high, after)
    ensures Revisits(kind, low, high, after) == 0 <==> forall k :: !ComesBack(kind, low, high, after, k)
  {
    var at := RevisitsInOrder(kind, low, high, after);
    hide Revisits, ComesBack;
    if |at| >= 1 { assert at[0] in at; }
    if |at| >= 2 { assert at[1] in at; }
    if a, b :| a < b && ComesBack(kind, low, high, after, a) && ComesBack(kind, low, high, after, b) {
      assert a in at && b in at;
    }
  }

  ghost predicate ClosesThrough(kind: ZoneKind, low: real, high: real, c: Candle) {
    match kind case Demand => c.close < low case Supply => high < c.close
  }

  /** A zone's life in candles: dead once a bar closes through its far side or a second one comes back to it, fresh
      until the first comes back. */
  lemma {:induction false} LifeOnCandles(kind: ZoneKind, low: real, high: real, after: seq<Candle>)
    ensures var life := Life(kind, low, high, after);
            var through := exists k :: 0 <= k < |after| && ClosesThrough(kind, low, high, after[k]);
            && (life == None <==> through || ComesBackTwice(kind, low, high, after))
            && (life == Some(Fresh) <==> !through && forall k :: !ComesBack(kind, low, high, after, k))
  {
    RevisitCounts(kind, low, high, after);
    forall k | 0 <= k < |after|
      ensures TradedThrough(kind, low, high, after[k]) <==> ClosesThrough(kind, low, high, after[k]) {}
    hide Revisits, ComesBack, ComesBackTwice, ClosesThrough, TradedThrough;
  }

  function Age(state: Option<Freshness>): nat {
    match state case Some(Fresh) => 0 case Some(Tested) => 1 case None => 2
  }

  /** A zone only ages: fresh, then tested, then dead for good. */
  lemma {:induction false} ZoneOnlyAges(kind: ZoneKind, low: real, high: real, a: seq<Candle>, b: seq<Candle>)
    ensures Age(Life(kind, low, high, a)) <= Age(Life(kind, low, high, a + b))
  {
    RevisitsGrow(kind, low, high, a, b);
    assert forall k :: 0 <= k < |a| ==> (a + b)[k] == a[k];
  }

  // ---------------------------------------------------------------- which zones are kept

  const MAX_ZONES_PER_KIND := 2

  predicate MoreRecent(a: BaseZone, b: BaseZone) { a.endTime >= b.endTime }

  predicate StartsFirst(a: BaseZone, b: BaseZone) { a.startTime <= b.startTime }

  predicate Overlap(a: BaseZone, b: BaseZone) {
    a.kind == b.kind && a.priceLow <= b.priceHigh && a.priceHigh >= b.priceLow
  }

  ghost predicate Spans(z: BaseZone, price: real) { z.priceLow <= price <= z.priceHigh }

  /** Two zones of a kind overlap exactly when some price lies in both. */
  lemma {:induction false} OverlapIff(a: BaseZone, b: BaseZone)
    requires a.priceLow <= a.priceHigh && b.priceLow <= b.priceHigh
    ensures Overlap(a, b) <==> a.kind == b.kind && exists price :: Spans(a, price) && Spans(b, price)
  {
    if Overlap(a, b) {
      var price := Max(a.priceLow, b.priceLow);
      assert Spans(a, price) && Spans(b, price);
    }
  }

  function CountKind(zones: seq<BaseZone>, kind: ZoneKind): nat {
    if |zones| == 0 then 0
    else CountKind(zones[..|zones| - 1], kind) + if zones[|zones| - 1].kind == kind then 1 else 0
  }

  predicate Keeps(picked: seq<BaseZone>, z: BaseZone) {
    CountKind(picked, z.kind) < MAX_ZONES_PER_KIND && forall k :: 0 <= k < |picked| ==> !Overlap(z, picked[k])
  }

  /** The greedy pick over zones ordered most recent first. */
  function Picked(zones: seq<BaseZone>): seq<BaseZone> {
    if |zones| == 0 then []
    else
      var before, z := Picked(zones[..|zones| - 1]), zones[|zones| - 1];
      if Keeps(before, z) then before + [z] else before
  }

  function SelectZones(zones: seq<BaseZone>): seq<BaseZone> {
    Sorting.Sort(Picked(Sorting.Sort(zones, MoreRecent)), StartsFirst)
  }

  method SelectZonesLoop(zones: seq<BaseZone>) returns (kept: seq<BaseZone>)
    ensures kept == SelectZones(zones)
  {
    var picked: seq<BaseZone> := [];
    var ordered := Sorting.Sort(zones, MoreRecent);
    for i := 0 to |ordered|
      invariant picked == Picked(ordered[..i])
    {
      var zone := ordered[i];
      assert ordered[..i + 1][..i] == ordered[..i];
      if CountKind(picked, zone.kind) >= MAX_ZONES_PER_KIND {
        continue;
      }
      var overlaps := exists k :: 0 <= k < |picked| && Overlap(zone, picked[k]);
      if !overlaps {
        picked := picked + [zone];
      }
    }
    assert ordered[..|ordered|] == ordered;
    return Sorting.Sort(picked, StartsFirst);
  }

  /** `z` had a reason to be left out: a pick at least as recent overlaps it, or its kind was full of
      picks at least as recent. */
  ghost predicate DroppedForCause(picked: seq<BaseZone>, z: BaseZone) {
    || (exists p :: p in picked && Overlap(z, p) && p.endTime >= z.endTime)
    || (exists i, j :: 0 <= i < j < |picked| && picked[i].kind == picked[j].kind == z.kind
                       && picked[i].endTime >= z.endTime && picked[j].endTime >= z.endTime)
  }

  ghost predicate PairwiseApart(zones: seq<BaseZone>) {
    forall i, j :: 0 <= i < j < |zones| ==> !Overlap(zones[i], zones[j])
  }

  lemma {:induction false} TwoOfAKind(zones: seq<BaseZone>, kind: ZoneKind)
    ensures CountKind(zones, kind) >= 1 ==> exists i :: 0 <= i < |zones| && zones[i].kind == kind
    ensures CountKind(zones, kind) >= 2 ==>
            exists i, j :: 0 <= i < j < |zones| && zones[i].kind == zones[j].kind == kind
  {
    if |zones| > 0 {
      var init := zones[..|zones| - 1];
      TwoOfAKind(init, kind);
      if CountKind(zones, kind) >= 1 {
        var i :| 0 <= i < |zones| && zones[i].kind == kind && (zones[|zones| - 1].kind == kind ==> i == |zones| - 1);
        if CountKind(zones, kind) >= 2 && zones[|zones| - 1].kind == kind {
          var j :| 0 <= j < |init| && init[j].kind == kind;
          assert zones[j].kind == zones[|zones| - 1].kind == kind;
        }
      }
    }
  }

  lemma {:induction false} CountSnoc(zones: seq<BaseZone>, last: BaseZone, kind: ZoneKind)
    ensures CountKind(zones + [last], kind) == CountKind(zones, kind) + if last.kind == kind then 1 else 0
  {
    assert (zones + [last])[..|zones|] == zones;
  }

  lemma {:induction false} PickedApart(zones: seq<BaseZone>)
    ensures PairwiseApart(Picked(zones))
    ensures forall kind :: CountKind(Picked(zones), kind) <= MAX_ZONES_PER_KIND
    ensures forall z :: z in Picked(zones) ==> z in zones
  {
    if |zones| > 0 {
      var init, last := zones[..|zones| - 1], zones[|zones| - 1];
      PickedApart(init);
      forall kind ensures CountKind(Picked(zones), kind) <= MAX_ZONES_PER_KIND {
        CountSnoc(Picked(init), last, kind);
      }
    }
  }

  /** A zone not kept against picks at least as recent has its cause among them. */
  lemma {:induction false} RefusedForCause(picked: seq<BaseZone>, z: BaseZone)
    requires !Keeps(picked, z) && forall p :: p in picked ==> p.endTime >= z.endTime
    ensures DroppedForCause(picked, z)
  {
    if CountKind(picked, z.kind) >= MAX_ZONES_PER_KIND {
      TwoOfAKind(picked, z.kind);
      var i, j :| 0 <= i < j < |picked| && picked[i].kind == picked[j].kind == z.kind;
      assert picked[i] in picked && picked[j] in picked;
    }
  }

  lemma {:induction false} PickedFacts(zones: seq<BaseZone>)
    requires Sorting.Sorted(zones, MoreRecent)
    ensures forall z :: z in zones ==> z in Picked(zones) || DroppedForCause(Picked(zones), z)
  {
    if |zones| > 0 {
      var init, last := zones[..|zones| - 1], zones[|zones| - 1];
      PickedFacts(init);
      PickedApart(init);
      var before, after := Picked(init), Picked(zones);
      assert zones == init + [last];
      forall p | p in before ensures p.endTime >= last.endTime {
        var k :| 0 <= k < |init| && init[k] == p;
        assert MoreRecent(zones[k], zones[|zones| - 1]);
      }
      if !Keeps(before, last) { RefusedForCause(before, last); }
      forall z | z in init && z !in before
        ensures DroppedForCause(after, z)
      {
        CauseStands(before, after, z);
      }
    }
  }

  lemma {:induction false} CauseStands(before: seq<BaseZone>, after: seq<BaseZone>, z: BaseZone)
    requires DroppedForCause(before, z) && before <= after
    ensures DroppedForCause(after, z)
  {
    if p :| p in before && Overlap(z, p) && p.endTime >= z.endTime {
      assert p in after;
    } else {
      var i, j :| 0 <= i < j < |before| && before[i].kind == before[j].kind == z.kind
                  && before[i].endTime >= z.endTime && before[j].endTime >= z.endTime;
      assert after[i] == before[i] && after[j] == before[j];
    }
  }

  /** Kept zones of one kind never overlap and number at most two; every zone left out overlaps, or
      was crowded out by, kept zones at least as recent. */
  lemma {:induction false} SelectionFacts(zones: seq<BaseZone>)
    ensures var kept := Picked(Sorting.Sort(zones, MoreRecent));
            && multiset(SelectZones(zones)) == multiset(kept)
            && PairwiseApart(kept) && (forall kind :: CountKind(kept, kind) <= MAX_ZONES_PER_KIND)
            && (forall z :: z in kept ==> z in zones)
            && (forall z :: z in zones ==> z in kept || DroppedForCause(kept, z))
    ensures Sorting.Sorted(SelectZones(zones), StartsFirst)
  {
    Sorting.SortSorted(zones, MoreRecent);
    Sorting.SortKeeps(zones, MoreRecent);
    PickedApart(Sorting.Sort(zones, MoreRecent));
    PickedFacts(Sorting.Sort(zones, MoreRecent));
    Sorting.SortKeeps(Picked(Sorting.Sort(zones, MoreRecent)), StartsFirst);
    Sorting.SortSorted(Picked(Sorting.Sort(zones, MoreRecent)), StartsFirst);
  }
}
