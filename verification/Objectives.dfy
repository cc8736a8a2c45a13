/** Draw-on-liquidity objectives (engine/smc/objectives.py). Swings and pools are named by their place
    in the lists they came from, which is what the source's object identity amounts to. */
module Objectives {
  import opened Types
  import opened Structure
  import opened Strength
  import opened Liquidity
  import Sorting

  function TargetKind(direction: Side): Kind { if direction == Long then High else Low }

  /** `a` lies strictly past `b` in the trade direction. */
  predicate Beyond(direction: Side, a: real, b: real) {
    if direction == Long then a > b else a < b
  }

  /** A price as a distance to travel: larger is further in the trade direction. */
  function Rank(direction: Side, price: real): real { if direction == Long then price else -price }

  // ---------------------------------------------------------------- eligible swings

  /** `swing` and `pool` are list positions; `time` is the swing's. */
  datatype Draw = Draw(swing: nat, strength: SwingStrength, swingPrice: real, time: int)

  datatype Candidate = Candidate(draw: Draw, price: real, pool: Option<nat>)

  predicate TakenLater(swings: seq<Swing>, direction: Side, i: nat)
    requires i < |swings|
  {
    exists j :: i < j < |swings| && swings[j].kind == TargetKind(direction)
                && Beyond(direction, swings[j].price, swings[i].price)
  }

  /** Strictly beyond, not strong, and not taken by a later swing of its kind. */
  predicate Eligible(swings: seq<Swing>, direction: Side, fromPrice: real, i: nat)
    requires i < |swings|
  {
    && swings[i].kind == TargetKind(direction)
    && StrengthAt(swings, i).strength != Strong
    && Beyond(direction, swings[i].price, fromPrice)
    && !TakenLater(swings, direction, i)
  }

  function DrawOf(swings: seq<Swing>, i: nat): Draw
    requires i < |swings|
  {
    Draw(i, StrengthAt(swings, i).strength, swings[i].price, swings[i].time)
  }

  /** The eligible swings among the first `n`, in time order. */
  function EligibleDraws(swings: seq<Swing>, direction: Side, fromPrice: real, n: nat): seq<Draw>
    requires n <= |swings|
  {
    if n == 0 then []
    else EligibleDraws(swings, direction, fromPrice, n - 1)
         + if Eligible(swings, direction, fromPrice, n - 1) then [DrawOf(swings, n - 1)] else []
  }

  method CollectEligible(swings: seq<Swing>, direction: Side, fromPrice: real) returns (eligible: seq<Draw>)
    ensures eligible == EligibleDraws(swings, direction, fromPrice, |swings|)
  {
    var entries := DeriveSwingStrength(swings);
    eligible := [];
    for index := 0 to |swings|
      invariant eligible == EligibleDraws(swings, direction, fromPrice, index)
    {
      var swing, strength := swings[index], entries[index].strength;
      if swing.kind != TargetKind(direction) || strength == Strong {
        continue;
      }
      if !Beyond(direction, swing.price, fromPrice) {
        continue;
      }
      var taken := false;
      for j := index + 1 to |swings|
        invariant taken <==> exists h :: index < h < j && swings[h].kind == TargetKind(direction)
                                         && Beyond(direction, swings[h].price, swing.price)
      {
        if swings[j].kind == TargetKind(direction) && Beyond(direction, swings[j].price, swing.price) {
          taken := true;
        }
      }
      if !taken {
        eligible := eligible + [DrawOf(swings, index)];
      }
    }
  }

  // ---------------------------------------------------------------- pools

  predicate Available(pools: seq<Pool>, direction: Side, fromPrice: real, k: nat) {
    k < |pools| && pools[k].side == (if direction == Long then Bsl else Ssl) && pools[k].intact
    && Beyond(direction, pools[k].price, fromPrice)
  }

  /** The pool's line is within tolerance of the swing, or on the way to it. */
  predicate Coincides(direction: Side, swingPrice: real, poolPrice: real) {
    Abs(poolPrice - swingPrice) <= swingPrice * EQUAL_LEVEL_TOLERANCE || Beyond(direction, swingPrice, poolPrice)
  }

  predicate Matches(pools: seq<Pool>, direction: Side, fromPrice: real, used: set<nat>, d: Draw, k: nat) {
    Available(pools, direction, fromPrice, k) && k !in used && Coincides(direction, d.swingPrice, pools[k].price)
  }

  /** The nearest unused coinciding pool among the first `n`, the earlier one on a tie. */
  function NearestPool(pools: seq<Pool>, direction: Side, fromPrice: real, used: set<nat>, d: Draw,
                       n: nat): (best: Option<nat>)
    requires n <= |pools|
    ensures best.Some? ==> best.value < n && Matches(pools, direction, fromPrice, used, d, best.value)
    ensures forall k :: 0 <= k < n && Matches(pools, direction, fromPrice, used, d, k) ==>
              best.Some? && Abs(pools[best.value].price - d.swingPrice) <= Abs(pools[k].price - d.swingPrice)
    ensures forall k :: 0 <= k < n && Matches(pools, direction, fromPrice, used, d, k) && k < best.value ==>
              Abs(pools[best.value].price - d.swingPrice) < Abs(pools[k].price - d.swingPrice)
  {
    if n == 0 then None
    else
      var before := NearestPool(pools, direction, fromPrice, used, d, n - 1);
      if Matches(pools, direction, fromPrice, used, d, n - 1)
         && (before == None || Abs(pools[n - 1].price - d.swingPrice) < Abs(pools[before.value].price - d.swingPrice))
      then Some(n - 1) else before
  }

  /** One candidate per draw, each taking its nearest pool still unused. */
  function Assign(pools: seq<Pool>, direction: Side, fromPrice: real, draws: seq<Draw>): (seq<Candidate>, set<nat>) {
    if |draws| == 0 then ([], {})
    else
      var (before, used) := Assign(pools, direction, fromPrice, draws[..|draws| - 1]);
      var d := draws[|draws| - 1];
      var pool := NearestPool(pools, direction, fromPrice, used, d, |pools|);
      match pool
      case None => (before + [Candidate(d, d.swingPrice, None)], used)
      case Some(k) => (before + [Candidate(d, pools[k].price, Some(k))], used + {k})
  }

  // ---------------------------------------------------------------- ordering and collapsing

  predicate LongDraws(a: Draw, b: Draw) {
    a.swingPrice < b.swingPrice || (a.swingPrice == b.swingPrice && a.time <= b.time)
  }

  predicate ShortDraws(a: Draw, b: Draw) {
    a.swingPrice > b.swingPrice || (a.swingPrice == b.swingPrice && a.time <= b.time)
  }

  predicate PoolFirst(a: Candidate, b: Candidate) {
    || (a.pool.Some? && b.pool.None?)
    || (a.pool.Some? == b.pool.Some? && a.draw.time <= b.draw.time)
  }

  predicate LongCandidates(a: Candidate, b: Candidate) { a.price < b.price || (a.price == b.price && PoolFirst(a, b)) }

  predicate ShortCandidates(a: Candidate, b: Candidate) { a.price > b.price || (a.price == b.price && PoolFirst(a, b)) }

  function DrawOrder(direction: Side): (Draw, Draw) -> bool { if direction == Long then LongDraws else ShortDraws }

  function CandidateOrder(direction: Side): (Candidate, Candidate) -> bool {
    if direction == Long then LongCandidates else ShortCandidates
  }

  predicate Seen(candidates: seq<Candidate>, price: real) {
    exists k :: 0 <= k < |candidates| && candidates[k].price == price
  }

  /** The first candidate at each price. */
  function Collapse(candidates: seq<Candidate>): seq<Candidate> {
    if |candidates| == 0 then []
    else
      var before, c := Collapse(candidates[..|candidates| - 1]), candidates[|candidates| - 1];
      if Seen(before, c.price) then before else before + [c]
  }

  function Assigned(swings: seq<Swing>, pools: seq<Pool>, direction: Side, fromPrice: real): seq<Candidate> {
    Assign(pools, direction, fromPrice,
           Sorting.Sort(EligibleDraws(swings, direction, fromPrice, |swings|), DrawOrder(direction))).0
  }

  function RankedDraws(swings: seq<Swing>, pools: seq<Pool>, direction: Side, fromPrice: real): seq<Candidate> {
    Collapse(Sorting.Sort(Assigned(swings, pools, direction, fromPrice), CandidateOrder(direction)))
  }

  method ResolveObjectives(swings: seq<Swing>, pools: seq<Pool>, direction: Side, fromPrice: real)
    returns (out: seq<Candidate>)
    ensures out == RankedDraws(swings, pools, direction, fromPrice)
  {
    var eligible := CollectEligible(swings, direction, fromPrice);
    eligible := Sorting.Sort(eligible, DrawOrder(direction));
    var used: set<nat> := {};
    var candidates: seq<Candidate> := [];
    for i := 0 to |eligible|
      invariant (candidates, used) == Assign(pools, direction, fromPrice, eligible[..i])
    {
      assert eligible[..i + 1][..i] == eligible[..i];
      var d := eligible[i];
      var pool := NearestPool(pools, direction, fromPrice, used, d, |pools|);
      if pool.Some? {
        used := used + {pool.value};
      }
      candidates := candidates + [Candidate(d, if pool.Some? then pools[pool.value].price else d.swingPrice, pool)];
    }
    assert eligible[..|eligible|] == eligible;
    candidates := Sorting.Sort(candidates, CandidateOrder(direction));
    var seen: set<real> := {};
    out := [];
    for i := 0 to |candidates|
      invariant out == Collapse(candidates[..i])
      invariant forall price :: price in seen <==> Seen(out, price)
    {
      assert candidates[..i + 1][..i] == candidates[..i];
      var c := candidates[i];
      if c.price in seen {
        continue;
      }
      seen := seen + {c.price};
      SeenSnoc(out, c);
      out := out + [c];
    }
    assert candidates[..|candidates|] == candidates;
  }

  lemma {:induction false} SeenSnoc(before: seq<Candidate>, c: Candidate)
    ensures forall price :: Seen(before + [c], price) <==> Seen(before, price) || price == c.price
  {
    var after := before + [c];
    forall price ensures Seen(after, price) <==> Seen(before, price) || price == c.price {
      if Seen(before, price) {
        var k :| 0 <= k < |before| && before[k].price == price;
        assert after[k].price == price;
      }
      assert after[|before|].price == c.price;
    }
  }

  // ---------------------------------------------------------------- what the list promises

  /** A candidate is an eligible swing, priced at its own pool's line or else at itself. */
  ghost predicate WellBacked(swings: seq<Swing>, pools: seq<Pool>, direction: Side, fromPrice: real, c: Candidate) {
    && c.draw.swing < |swings| && c.draw == DrawOf(swings, c.draw.swing)
    && Eligible(swings, direction, fromPrice, c.draw.swing)
    && match c.pool
       case None => c.price == c.draw.swingPrice
       case Some(k) => Available(pools, direction, fromPrice, k) && c.price == pools[k].price
                       && Coincides(direction, c.draw.swingPrice, c.price)
  }

  ghost predicate PoolsUsedOnce(candidates: seq<Candidate>) {
    forall i, j :: 0 <= i < j < |candidates| && candidates[i].pool.Some? ==> candidates[i].pool != candidates[j].pool
  }

  lemma {:induction false} EligibleDrawsMember(swings: seq<Swing>, direction: Side, fromPrice: real, n: nat, d: Draw)
    requires n <= |swings|
    ensures d in EligibleDraws(swings, direction, fromPrice, n)
            <==> d.swing < n && d == DrawOf(swings, d.swing) && Eligible(swings, direction, fromPrice, d.swing)
  {
    if n > 0 { EligibleDrawsMember(swings, direction, fromPrice, n - 1, d); }
  }

  lemma {:induction false} AssignFacts(pools: seq<Pool>, direction: Side, fromPrice: real, draws: seq<Draw>)
    ensures var (candidates, used) := Assign(pools, direction, fromPrice, draws);
            && |candidates| == |draws| && PoolsUsedOnce(candidates)
            && (forall i :: 0 <= i < |candidates| && candidates[i].pool.Some? ==> candidates[i].pool.value in used)
            && (forall i :: 0 <= i < |candidates| ==>
                  && candidates[i].draw == draws[i]
                  && match candidates[i].pool
                     case None => candidates[i].price == draws[i].swingPrice
                     case Some(k) => Available(pools, direction, fromPrice, k) && candidates[i].price == pools[k].price
                                     && Coincides(direction, draws[i].swingPrice, pools[k].price))
  {
    if |draws| > 0 { AssignFacts(pools, direction, fromPrice, draws[..|draws| - 1]); }
  }

  lemma {:induction false} DrawOrderTotal(direction: Side)
    ensures Sorting.TotalPreorder(DrawOrder(direction))
  {}

  lemma {:induction false} CandidateOrderTotal(direction: Side)
    ensures Sorting.TotalPreorder(CandidateOrder(direction))
  {
    if direction == Long {
      assert Sorting.TotalPreorder(LongCandidates);
    } else {
      assert Sorting.TotalPreorder(ShortCandidates);
    }
  }

  /** Two candidates backed by one pool are the same candidate. */
  ghost predicate PoolDetermines(s: seq<Candidate>) {
    forall c, d :: c in s && d in s && c.pool.Some? && c.pool == d.pool ==> c == d
  }

  lemma {:induction false} PoolsUsedOnceDetermine(s: seq<Candidate>)
    requires PoolsUsedOnce(s)
    ensures PoolDetermines(s)
  {
    forall c, d | c in s && d in s && c.pool.Some? && c.pool == d.pool ensures c == d {
      var i :| 0 <= i < |s| && s[i] == c;
      var j :| 0 <= j < |s| && s[j] == d;
      assert !(i < j) && !(j < i);
    }
  }

  /** Every eligible swing gets a candidate, every candidate is well backed, and no pool backs two. */
  lemma {:induction false} AssignedFacts(swings: seq<Swing>, pools: seq<Pool>, direction: Side, fromPrice: real)
    ensures forall c :: c in Assigned(swings, pools, direction, fromPrice) ==>
            WellBacked(swings, pools, direction, fromPrice, c)
    ensures forall i :: 0 <= i < |swings| && Eligible(swings, direction, fromPrice, i) ==>
              exists c :: c in Assigned(swings, pools, direction, fromPrice) && c.draw == DrawOf(swings, i)
    ensures PoolDetermines(Assigned(swings, pools, direction, fromPrice))
  {
    var eligible := EligibleDraws(swings, direction, fromPrice, |swings|);
    var draws := Sorting.Sort(eligible, DrawOrder(direction));
    Sorting.SortKeeps(eligible, DrawOrder(direction));
    AssignFacts(pools, direction, fromPrice, draws);
    var backed := Assigned(swings, pools, direction, fromPrice);
    forall c | c in backed ensures WellBacked(swings, pools, direction, fromPrice, c) {
      var k :| 0 <= k < |backed| && backed[k] == c;
      assert draws[k] in eligible;
      EligibleDrawsMember(swings, direction, fromPrice, |swings|, draws[k]);
    }
    forall i | 0 <= i < |swings| && Eligible(swings, direction, fromPrice, i)
      ensures exists c :: c in backed && c.draw == DrawOf(swings, i)
    {
      EligibleDrawsMember(swings, direction, fromPrice, |swings|, DrawOf(swings, i));
      var k :| 0 <= k < |draws| && draws[k] == DrawOf(swings, i);
      assert backed[k] in backed;
    }
    PoolsUsedOnceDetermine(backed);
  }

  ghost predicate TakenBefore(candidates: seq<Candidate>, i: nat, j: nat) {
    exists h :: 0 <= h < i && h < |candidates| && candidates[h].pool == Some(j)
  }

  ghost predicate NoFurtherThan(pools: seq<Pool>, c: Candidate, j: nat)
    requires j < |pools|
  {
    && c.pool.Some? && c.pool.value < |pools|
    && Abs(pools[c.pool.value].price - c.draw.swingPrice) <= Abs(pools[j].price - c.draw.swingPrice)
  }

  lemma {:induction false} UsedIsTaken(pools: seq<Pool>, direction: Side, fromPrice: real, draws: seq<Draw>)
    ensures var (candidates, used) := Assign(pools, direction, fromPrice, draws);
            |candidates| == |draws| && forall j :: j in used ==> TakenBefore(candidates, |draws|, j)
  {
    if |draws| > 0 {
      UsedIsTaken(pools, direction, fromPrice, draws[..|draws| - 1]);
      var (before, used) := Assign(pools, direction, fromPrice, draws[..|draws| - 1]);
      var (after, used') := Assign(pools, direction, fromPrice, draws);
      assert forall h :: 0 <= h < |before| ==> after[h] == before[h];
      forall j | j in used' ensures TakenBefore(after, |draws|, j) {
        if j in used {
          var h :| 0 <= h < |before| && before[h].pool == Some(j);
          assert after[h].pool == Some(j);
        } else {
          assert after[|before|].pool == Some(j);
        }
      }
    }
  }

  /** In the order they are served, each draw gets the nearest coinciding pool no earlier draw took. */
  lemma {:induction false} ServedInOrder(pools: seq<Pool>, direction: Side, fromPrice: real, draws: seq<Draw>, i: nat,
                                         j: nat)
    requires i < |draws| && Available(pools, direction, fromPrice, j)
             && Coincides(direction, draws[i].swingPrice, pools[j].price)
    ensures var candidates := Assign(pools, direction, fromPrice, draws).0;
            i < |candidates| && candidates[i].draw == draws[i]
            && (TakenBefore(candidates, i, j) || NoFurtherThan(pools, candidates[i], j))
  {
    hide Coincides;
    var init := draws[..|draws| - 1];
    UsedIsTaken(pools, direction, fromPrice, init);
    var before, after := Assign(pools, direction, fromPrice, init).0, Assign(pools, direction, fromPrice, draws).0;
    assert forall h :: 0 <= h < |before| ==> after[h] == before[h];
    if i < |init| {
      ServedInOrder(pools, direction, fromPrice, init, i, j);
      if TakenBefore(before, i, j) {
        var h :| 0 <= h < i && h < |before| && before[h].pool == Some(j);
        assert after[h].pool == Some(j);
      }
    } else if TakenBefore(before, i, j) {
      var h :| 0 <= h < i && h < |before| && before[h].pool == Some(j);
      assert after[h].pool == Some(j);
    } else {
      assert Matches(pools, direction, fromPrice, Assign(pools, direction, fromPrice, init).1, draws[i], j);
    }
  }

  /** Nearest draw first: an available pool that coincides with a candidate's swing backs a draw no further away,
      or the candidate's own pool lies no further from its swing. */
  lemma {:induction false} GreedyAssignment(swings: seq<Swing>, pools: seq<Pool>, direction: Side, fromPrice: real,
                                            c: Candidate, j: nat)
    requires c in Assigned(swings, pools, direction, fromPrice)
    requires Available(pools, direction, fromPrice, j) && Coincides(direction, c.draw.swingPrice, pools[j].price)
    ensures || NoFurtherThan(pools, c, j)
            || exists b :: && b in Assigned(swings, pools, direction, fromPrice) && b.pool == Some(j)
                           && !Beyond(direction, b.draw.swingPrice, c.draw.swingPrice)
  {
    hide EligibleDraws, Assign, Available, Coincides, Sorting.Sort;
    var eligible, order := EligibleDraws(swings, direction, fromPrice, |swings|), DrawOrder(direction);
    var draws := Sorting.Sort(eligible, order);
    DrawOrderTotal(direction);
    Sorting.SortSorted(eligible, order);
    AssignFacts(pools, direction, fromPrice, draws);
    var candidates := Assigned(swings, pools, direction, fromPrice);
    var i :| 0 <= i < |candidates| && candidates[i] == c;
    ServedInOrder(pools, direction, fromPrice, draws, i, j);
    if TakenBefore(candidates, i, j) {
      var h :| 0 <= h < i && h < |candidates| && candidates[h].pool == Some(j);
      assert order(draws[h], draws[i]);
      assert candidates[h] in candidates;
    }
  }

  /** Collapsing keeps the first candidate at each price, in order. */
  lemma {:induction false} CollapseCovers(s: seq<Candidate>)
    ensures forall c :: c in Collapse(s) ==> c in s
    ensures forall c :: c in s ==> Seen(Collapse(s), c.price)
    ensures forall i, j :: 0 <= i < j < |Collapse(s)| ==> Collapse(s)[i].price != Collapse(s)[j].price
  {
    if |s| > 0 {
      var init, last := s[..|s| - 1], s[|s| - 1];
      CollapseCovers(init);
      var before, after := Collapse(init), Collapse(s);
      forall c | c in s ensures Seen(after, c.price) {
        if c in init {
          var k :| 0 <= k < |before| && before[k].price == c.price;
          assert after[k] == before[k];
        } else if !Seen(before, last.price) {
          assert after[|before|] == last;
        }
      }
    }
  }

  /** A sorted list's last element is preferred to none of the others. */
  lemma {:induction false} LastIsLast(init: seq<Candidate>, last: Candidate, le: (Candidate, Candidate) -> bool)
    requires Sorting.Sorted(init + [last], le)
    ensures Sorting.Sorted(init, le) && forall c :: c in init ==> le(c, last)
  {
    var s := init + [last];
    assert Sorting.Sorted(init, le) by {
      forall i, j | 0 <= i < j < |init| ensures le(init[i], init[j]) { assert le(s[i], s[j]); }
    }
    forall c | c in init ensures le(c, last) {
      var k :| 0 <= k < |init| && init[k] == c;
      assert le(s[k], s[|init|]);
    }
  }

  lemma {:induction false} SortedSnoc(s: seq<Candidate>, c: Candidate, le: (Candidate, Candidate) -> bool)
    requires Sorting.Sorted(s, le) && forall d :: d in s ==> le(d, c)
    ensures Sorting.Sorted(s + [c], le)
  {}

  lemma {:induction false} CollapseSorted(s: seq<Candidate>, le: (Candidate, Candidate) -> bool)
    requires Sorting.Sorted(s, le)
    ensures Sorting.Sorted(Collapse(s), le)
  {
    if |s| > 0 {
      var init, last := s[..|s| - 1], s[|s| - 1];
      assert s == init + [last];
      LastIsLast(init, last, le);
      CollapseSorted(init, le);
      CollapseCovers(init);
      SortedSnoc(Collapse(init), last, le);
      hide Sorting.Sorted, Seen;
    }
  }

  /** What is kept at a price is preferred to everything else at it. */
  lemma {:induction false} CollapseKeepsBest(s: seq<Candidate>, le: (Candidate, Candidate) -> bool, c: Candidate,
                                             d: Candidate)
    requires Sorting.Sorted(s, le) && le(c, c)
    requires c in Collapse(s) && d in s && d.price == c.price
    ensures le(c, d)
  {
    var init, last := s[..|s| - 1], s[|s| - 1];
    assert s == init + [last];
    LastIsLast(init, last, le);
    CollapseCovers(init);
    hide Sorting.Sorted;
    if c !in Collapse(init) {
      assert c == last && !Seen(Collapse(init), c.price);
      assert d !in init;
    } else if d in init {
      CollapseKeepsBest(init, le, c, d);
    }
  }

  /** The list is the collapse of the sorted candidates, so the facts of both carry over. */
  lemma {:induction false} ListFacts(swings: seq<Swing>, pools: seq<Pool>, direction: Side, fromPrice: real)
    ensures var out, backed, order := RankedDraws(swings, pools, direction, fromPrice),
              Assigned(swings, pools, direction, fromPrice), CandidateOrder(direction);
            && (forall c :: c in out ==> c in backed)
            && (forall c :: c in backed ==> Seen(out, c.price))
            && Sorting.Sorted(out, order)
            && (forall i, j :: 0 <= i < j < |out| ==> out[i].price != out[j].price)
            && (forall c, d :: c in out && d in backed && d.price == c.price ==> order(c, d))
  {
    var order, backed := CandidateOrder(direction), Assigned(swings, pools, direction, fromPrice);
    CandidateOrderTotal(direction);
    Sorting.SortKeeps(backed, order);
    Sorting.SortSorted(backed, order);
    var ranked := Sorting.Sort(backed, order);
    CollapseCovers(ranked);
    CollapseSorted(ranked, order);
    forall c, d | c in Collapse(ranked) && d in ranked && d.price == c.price ensures order(c, d) {
      CollapseKeepsBest(ranked, order, c, d);
    }
  }

  /** Prices move strictly away from `fromPrice`, and the first is already strictly past it. */
  lemma {:induction false} ObjectivesMoveAway(swings: seq<Swing>, pools: seq<Pool>, direction: Side, fromPrice: real)
    ensures var out := RankedDraws(swings, pools, direction, fromPrice);
            && (forall i, j :: 0 <= i < j < |out| ==> Beyond(direction, out[j].price, out[i].price))
            && (forall i :: 0 <= i < |out| ==> Beyond(direction, out[i].price, fromPrice))
  {
    var out := RankedDraws(swings, pools, direction, fromPrice);
    ListFacts(swings, pools, direction, fromPrice);
    AssignedFacts(swings, pools, direction, fromPrice);
    forall i | 0 <= i < |out| ensures Beyond(direction, out[i].price, fromPrice) {
      assert out[i] in out;
      assert WellBacked(swings, pools, direction, fromPrice, out[i]);
    }
    forall i, j | 0 <= i < j < |out| ensures Beyond(direction, out[j].price, out[i].price) {
      assert CandidateOrder(direction)(out[i], out[j]) && out[i].price != out[j].price;
    }
  }

  /** Every entry is an untaken swing that is not strong, priced at its own line or its pool's; no
      pool backs two entries. */
  lemma {:induction false} ObjectivesWellBacked(swings: seq<Swing>, pools: seq<Pool>, direction: Side, fromPrice: real)
    ensures var out := RankedDraws(swings, pools, direction, fromPrice);
            (forall c :: c in out ==> WellBacked(swings, pools, direction, fromPrice, c)) && PoolsUsedOnce(out)
  {
    var out := RankedDraws(swings, pools, direction, fromPrice);
    ListFacts(swings, pools, direction, fromPrice);
    AssignedFacts(swings, pools, direction, fromPrice);
    forall i, j | 0 <= i < j < |out| && out[i].pool.Some? ensures out[i].pool != out[j].pool {
      assert out[i] in out && out[j] in out;
      assert out[i].price != out[j].price;
    }
  }

  /** Every eligible swing's candidate level is in the list, and an entry without a pool has no
      pool-backed twin at its price. */
  lemma {:induction false} ObjectivesCover(swings: seq<Swing>, pools: seq<Pool>, direction: Side, fromPrice: real,
                                           i: nat)
    requires i < |swings| && Eligible(swings, direction, fromPrice, i)
    ensures var out, backed := RankedDraws(swings, pools, direction, fromPrice),
            Assigned(swings, pools, direction, fromPrice);
            && (exists c :: c in backed && c.draw == DrawOf(swings, i) && Seen(out, c.price))
            && (forall c, d :: c in out && c.pool.None? && d in backed && d.price == c.price ==> d.pool.None?)
  {
    ListFacts(swings, pools, direction, fromPrice);
    AssignedFacts(swings, pools, direction, fromPrice);
    var out, backed := RankedDraws(swings, pools, direction, fromPrice), Assigned(swings, pools, direction, fromPrice);
    forall c, d | c in out && c.pool.None? && d in backed && d.price == c.price ensures d.pool.None? {
      assert CandidateOrder(direction)(c, d);
    }
  }

  ghost predicate Approaching(direction: Side, draws: seq<Draw>) {
    forall a, b :: 0 <= a < b < |draws| ==> !Beyond(direction, draws[b].swingPrice, draws[a].swingPrice)
  }

  /** In time order the eligible levels never get further away: the nearest draw is also the latest. */
  lemma {:induction false} EligibleLevelsApproach(swings: seq<Swing>, direction: Side, fromPrice: real, n: nat)
    requires n <= |swings|
    ensures Approaching(direction, EligibleDraws(swings, direction, fromPrice, n))
  {
    if n > 0 {
      EligibleLevelsApproach(swings, direction, fromPrice, n - 1);
      var before := EligibleDraws(swings, direction, fromPrice, n - 1);
      if Eligible(swings, direction, fromPrice, n - 1) {
        forall a | 0 <= a < |before|
          ensures !Beyond(direction, swings[n - 1].price, before[a].swingPrice)
        {
          EligibleDrawsMember(swings, direction, fromPrice, n - 1, before[a]);
          assert before[a] in before && !TakenLater(swings, direction, before[a].swing);
        }
      }
    }
  }

  /** Draws are served from the price outward, the earlier first at one price. */
  lemma {:induction false} DrawsOutward(draws: seq<Draw>, direction: Side, i: nat, j: nat)
    ensures var served := Sorting.Sort(draws, DrawOrder(direction));
            i < j < |served| ==>
              && (match direction
                  case Long => served[i].swingPrice <= served[j].swingPrice
                  case Short => served[i].swingPrice >= served[j].swingPrice)
              && (served[i].swingPrice == served[j].swingPrice ==> served[i].time <= served[j].time)
  {
    DrawOrderTotal(direction);
    hide Sorting.Sort;
    Sorting.SortSorted(draws, DrawOrder(direction));
    var served := Sorting.Sort(draws, DrawOrder(direction));
    if i < j < |served| { assert DrawOrder(direction)(served[i], served[j]); }
  }

  /** Of the candidates at one price the list keeps a pool-backed one if there is one, and the earliest of its kind. */
  lemma {:induction false} KeptAtPrice(swings: seq<Swing>, pools: seq<Pool>, direction: Side, fromPrice: real,
                                       c: Candidate, d: Candidate)
    requires c in RankedDraws(swings, pools, direction, fromPrice)
    requires d in Assigned(swings, pools, direction, fromPrice) && d.price == c.price
    ensures d.pool.Some? ==> c.pool.Some?
    ensures (c.pool.Some? <==> d.pool.Some?) ==> c.draw.time <= d.draw.time
  {
    ListFacts(swings, pools, direction, fromPrice);
    hide RankedDraws, Assigned;
    assert CandidateOrder(direction)(c, d);
  }

  // ---------------------------------------------------------------- an objective in prices

  /** A swing worth drawing to: past the price on the trade's side, not strong, and not yet traded beyond by a later
      one. */
  ghost predicate TargetSwing(swings: seq<Swing>, direction: Side, fromPrice: real, i: nat) {
    && i < |swings| && StrengthAt(swings, i).strength != Strong
    && match direction
       case Long => && swings[i].kind == High && fromPrice < swings[i].price
                    && forall j :: i < j < |swings| && swings[j].kind == High ==> swings[j].price <= swings[i].price
       case Short => && swings[i].kind == Low && swings[i].price < fromPrice
                     && forall j :: i < j < |swings| && swings[j].kind == Low ==> swings[i].price <= swings[j].price
  }

  /** A pool that may stand in for it: intact, on the same side past the price, on the way to the swing or within a
      thousandth of it. */
  ghost predicate TargetPool(pool: Pool, direction: Side, fromPrice: real, swingPrice: real) {
    && pool.intact
    && match direction
       case Long => && pool.side == Bsl && fromPrice < pool.price
                    && (pool.price < swingPrice || pool.price - swingPrice <= swingPrice * 0.001)
       case Short => && pool.side == Ssl && pool.price < fromPrice
                     && (swingPrice < pool.price || swingPrice - pool.price <= swingPrice * 0.001)
  }

  lemma {:induction false} EligibleOnSwings(swings: seq<Swing>, direction: Side, fromPrice: real, i: nat)
    requires i < |swings|
    ensures Eligible(swings, direction, fromPrice, i) <==> TargetSwing(swings, direction, fromPrice, i)
  {
    hide StrengthAt;
  }

  lemma {:induction false} MatchOnPools(pools: seq<Pool>, direction: Side, fromPrice: real, d: Draw, k: nat)
    requires k < |pools| && d.swingPrice >= 0.0
    ensures Available(pools, direction, fromPrice, k) && Coincides(direction, d.swingPrice, pools[k].price)
            <==> TargetPool(pools[k], direction, fromPrice, d.swingPrice)
  {}

  /** Each listed objective in prices: a swing worth drawing to, priced at itself, or at a pool that may stand in for
      it. */
  lemma {:induction false} ObjectivesOnPrices(swings: seq<Swing>, pools: seq<Pool>, direction: Side, fromPrice: real,
                                              c: Candidate)
    requires c in RankedDraws(swings, pools, direction, fromPrice)
    requires forall s :: s in swings ==> s.price >= 0.0
    ensures TargetSwing(swings, direction, fromPrice, c.draw.swing)
    ensures var price := swings[c.draw.swing].price;
            match c.pool
            case None => c.price == price
            case Some(k) => && k < |pools| && c.price == pools[k].price
                            && TargetPool(pools[k], direction, fromPrice, price)
  {
    ListFacts(swings, pools, direction, fromPrice);
    AssignedFacts(swings, pools, direction, fromPrice);
    hide RankedDraws, Assigned, StrengthAt, Eligible, Coincides, TargetSwing, TargetPool;
    var i := c.draw.swing;
    assert WellBacked(swings, pools, direction, fromPrice, c);
    EligibleOnSwings(swings, direction, fromPrice, i);
    assert swings[i] in swings;
    if c.pool.Some? { MatchOnPools(pools, direction, fromPrice, c.draw, c.pool.value); }
  }

  // ---------------------------------------------------------------- a single draw

  /** One eligible swing without pools is the one objective. */
  lemma {:induction false} OneDraw(swings: seq<Swing>, direction: Side, fromPrice: real)
    requires |swings| == 1 && swings[0].kind == TargetKind(direction) && Beyond(direction, swings[0].price, fromPrice)
    ensures RankedDraws(swings, [], direction, fromPrice) == [Candidate(DrawOf(swings, 0), swings[0].price, None)]
  {
    var d := DrawOf(swings, 0);
    var c := Candidate(d, swings[0].price, None);
    assert EligibleDraws(swings, direction, fromPrice, 0) == [];
    assert EligibleDraws(swings, direction, fromPrice, 1) == [d];
    SortOne(d, DrawOrder(direction));
    SortOne(c, CandidateOrder(direction));
    AssignOne(d, direction, fromPrice);
    CollapseOne(c);
    hide EligibleDraws, Sorting.Sort, Assign, Collapse;
  }

  lemma {:induction false} AssignOne(d: Draw, direction: Side, fromPrice: real)
    ensures Assign([], direction, fromPrice, [d]).0 == [Candidate(d, d.swingPrice, None)]
  {
    assert [d][..0] == [] && Assign([], direction, fromPrice, []) == ([], {});
  }

  lemma {:induction false} CollapseOne(c: Candidate)
    ensures Collapse([c]) == [c]
  {
    assert [c][..0] == [] && Collapse([]) == [];
  }

  lemma {:induction false} SortOne<T>(x: T, le: (T, T) -> bool)
    ensures Sorting.Sort([x], le) == [x]
  {
    assert [x][..0] == [] && Sorting.Sort([], le) == [];
  }
}
