/** What the structure fold promises: completed swings are frozen, and equal levels are exactly the
    maximal runs near their first member. */
module StructureFacts {
  import opened Types
  import opened Structure

  // ---------------------------------------------------------------- frozen swings

  ghost predicate AgreeUpTo(a: seq<Pivot>, b: seq<Pivot>, n: nat) {
    n <= |a| && n <= |b| && forall j :: 0 <= j < n ==> a[j] == b[j]
  }

  lemma {:induction false} RunsLocal(a: seq<Pivot>, b: seq<Pivot>, tolerance: real, kind: Kind, n: nat)
    requires AgreeUpTo(a, b, n)
    ensures Runs(a, tolerance, kind, n) == Runs(b, tolerance, kind, n)
  {
    if n > 0 { RunsLocal(a, b, tolerance, kind, n - 1); }
  }

  lemma {:induction false} LabelLocal(a: seq<Pivot>, b: seq<Pivot>, i: nat)
    requires AgreeUpTo(a, b, i + 1)
    ensures LabelAt(a, i) == LabelAt(b, i)
  {}

  /** A swing's whole record reads only legs up to its own. */
  lemma {:induction false} SwingLocal(a: seq<Pivot>, b: seq<Pivot>, tolerance: real, i: nat)
    requires AgreeUpTo(a, b, i + 1)
    ensures SwingAt(a, tolerance, i) == SwingAt(b, tolerance, i)
  {
    LabelLocal(a, b, i);
    if i > 0 { LabelLocal(a, b, i - 1); }
    if i > 1 { LabelLocal(a, b, i - 2); }
    assert TrendAfter(a, i) == TrendAfter(b, i);
    RunsLocal(a, b, tolerance, a[i].kind, i);
    assert MatchesAnchor(a, tolerance, a[i].kind, i) == MatchesAnchor(b, tolerance, a[i].kind, i);
  }

  /** `after` is `before` with every swing but the last kept, and the last at most moved outward. */
  ghost predicate FrozenButLast(before: seq<Swing>, after: seq<Swing>) {
    && |before| <= |after|
    && (forall i :: 0 <= i < |before| - 1 ==> after[i] == before[i])
    && (|before| > 0 ==>
          var b, a := before[|before| - 1], after[|before| - 1];
          a.kind == b.kind && (a == b || Outside(b.kind, a.price, b.price)))
  }

  lemma {:induction false} SwingsFrozen(p: seq<Pivot>, q: seq<Pivot>, tolerance: real)
    ensures FrozenButLast(StructureOf(p, tolerance).swings, StructureOf(p + q, tolerance).swings)
  {
    hide Legs, LabelAt, EventAt, Runs, Levels, MatchesAnchor;
    var a, b := Legs(p), Legs(p + q);
    LegsFrozen(p, q);
    forall i | 0 <= i < |a| - 1
      ensures SwingsOf(b, tolerance, |b|)[i] == SwingsOf(a, tolerance, |a|)[i]
    {
      SwingKept(a, b, tolerance, i);
    }
    if |a| > 0 {
      var m := |a| - 1;
      if a[m] == b[m] {
        SwingKept(a, b, tolerance, m);
      } else {
        SwingsOfAt(a, tolerance, |a|, m);
        SwingsOfAt(b, tolerance, |b|, m);
      }
    }
  }

  lemma {:induction false} SwingKept(a: seq<Pivot>, b: seq<Pivot>, tolerance: real, i: nat)
    requires i < |a| <= |b|
    requires forall j :: 0 <= j <= i ==> a[j] == b[j]
    ensures SwingsOf(b, tolerance, |b|)[i] == SwingsOf(a, tolerance, |a|)[i]
  {
    SwingLocal(a, b, tolerance, i);
    SwingsOfAt(a, tolerance, |a|, i);
    SwingsOfAt(b, tolerance, |b|, i);
  }

  /** Swing `i` carries leg `i`, and its kind differs from its neighbour's. */
  lemma {:induction false} SwingShape(p: seq<Pivot>, tolerance: real, i: nat)
    requires i < |Legs(p)|
    ensures |StructureOf(p, tolerance).swings| == |Legs(p)|
    ensures StructureOf(p, tolerance).swings[i] == SwingAt(Legs(p), tolerance, i)
    ensures i > 0 ==> Legs(p)[i].kind != Legs(p)[i - 1].kind
  {
    LegsAlternate(p);
    SwingsOfAt(Legs(p), tolerance, |Legs(p)|, i);
  }

  // ---------------------------------------------------------------- equal-level clusters

  function TouchesOf(legs: seq<Pivot>, kind: Kind, n: nat): seq<Touch>
    requires n <= |legs|
  {
    if n == 0 then []
    else TouchesOf(legs, kind, n - 1) + if legs[n - 1].kind == kind then [Touch(n - 1, legs[n - 1].price)] else []
  }

  function Joined(runs: seq<Run>): seq<Touch> {
    if |runs| == 0 then [] else Joined(runs[..|runs| - 1]) + runs[|runs| - 1].Members()
  }

  ghost predicate NearAnchor(run: Run, tolerance: real) {
    forall t :: t in run.later ==> Near(t.price, run.anchor.price, tolerance)
  }

  /** Every member is near its run's anchor and no anchor is near the one before it. */
  ghost predicate Separated(runs: seq<Run>, tolerance: real) {
    && (forall r :: 0 <= r < |runs| ==> NearAnchor(runs[r], tolerance))
    && (forall q, r :: 0 <= q < r < |runs| && r == q + 1 ==>
        !Near(runs[r].anchor.price, runs[q].anchor.price, tolerance))
  }

  /** Disjoint runs covering every same-kind leg in order, as long as the tolerance lets them be. */
  ghost predicate MaximalClusters(legs: seq<Pivot>, tolerance: real, kind: Kind, n: nat, runs: seq<Run>) {
    n <= |legs| && Joined(runs) == TouchesOf(legs, kind, n) && Separated(runs, tolerance)
  }

  lemma {:induction false} RunsCharacterized(legs: seq<Pivot>, tolerance: real, kind: Kind, n: nat, runs: seq<Run>)
    requires n <= |legs|
    ensures MaximalClusters(legs, tolerance, kind, n, runs) <==> runs == Runs(legs, tolerance, kind, n)
  {
    RunsAreMaximal(legs, tolerance, kind, n);
    if MaximalClusters(legs, tolerance, kind, n, runs) {
      MaximalIsUnique(legs, tolerance, kind, n, runs);
    }
  }

  lemma {:induction false} NothingToCut(legs: seq<Pivot>, tolerance: real, kind: Kind)
    ensures MaximalClusters(legs, tolerance, kind, 0, [])
  {}

  lemma {:induction false} RunsAreMaximal(legs: seq<Pivot>, tolerance: real, kind: Kind, n: nat)
    requires n <= |legs|
    ensures MaximalClusters(legs, tolerance, kind, n, Runs(legs, tolerance, kind, n))
  {
    hide Joined, Separated, PushRun, Near;
    if n == 0 {
      NothingToCut(legs, tolerance, kind);
    } else {
      RunsAreMaximal(legs, tolerance, kind, n - 1);
      if legs[n - 1].kind == kind {
        var before, t := Runs(legs, tolerance, kind, n - 1), Touch(n - 1, legs[n - 1].price);
        var matches := MatchesAnchor(legs, tolerance, kind, n - 1);
        PushSeparated(before, matches, t, tolerance);
        JoinedPush(before, matches, t);
      }
    }
  }

  lemma {:induction false} JoinedPush(runs: seq<Run>, matches: bool, t: Touch)
    requires matches ==> |runs| > 0
    ensures Joined(PushRun(runs, matches, t)) == Joined(runs) + [t]
  {
    if matches {
      var init, last := runs[..|runs| - 1], runs[|runs| - 1];
      var grown := Run(last.anchor, last.later + [t]);
      assert grown.Members() == last.Members() + [t];
      JoinedSnoc(init, grown);
    } else {
      JoinedSnoc(runs, Run(t, []));
    }
  }

  lemma {:induction false} JoinedSnoc(runs: seq<Run>, last: Run)
    ensures Joined(runs + [last]) == Joined(runs) + last.Members()
  {
    assert (runs + [last])[..|runs|] == runs;
  }

  /** A pushed list is separated exactly when the push obeyed the anchor test. */
  lemma {:induction false} PushSeparated(runs: seq<Run>, matches: bool, t: Touch, tolerance: real)
    requires matches ==> |runs| > 0
    ensures Separated(PushRun(runs, matches, t), tolerance)
            <==> Separated(runs, tolerance)
                 && matches == (|runs| > 0 && Near(t.price, runs[|runs| - 1].anchor.price, tolerance))
  {
    var pushed, m := PushRun(runs, matches, t), |runs| - 1;
    assert forall r :: 0 <= r < m ==> pushed[r] == runs[r];
    if matches {
      GrownNearAnchor(runs[m], t, tolerance);
      assert pushed[m] == Run(runs[m].anchor, runs[m].later + [t]);
    } else {
      assert m >= 0 ==> pushed[m] == runs[m];
      assert pushed[m + 1] == Run(t, []) && NearAnchor(pushed[m + 1], tolerance);
    }
    if Separated(pushed, tolerance) {
      forall q, r | 0 <= q < r < |runs| && r == q + 1
        ensures !Near(runs[r].anchor.price, runs[q].anchor.price, tolerance)
      {
        assert !Near(pushed[r].anchor.price, pushed[q].anchor.price, tolerance);
      }
      forall r | 0 <= r < |runs|
        ensures NearAnchor(runs[r], tolerance)
      {
        assert NearAnchor(pushed[r], tolerance);
      }
    }
  }

  lemma {:induction false} GrownNearAnchor(run: Run, t: Touch, tolerance: real)
    ensures NearAnchor(Run(run.anchor, run.later + [t]), tolerance)
            <==> NearAnchor(run, tolerance) && Near(t.price, run.anchor.price, tolerance)
  {
    var grown := Run(run.anchor, run.later + [t]);
    assert t in grown.later && forall u :: u in run.later ==> u in grown.later;
  }

  lemma {:induction false} MaximalIsUnique(legs: seq<Pivot>, tolerance: real, kind: Kind, n: nat, runs: seq<Run>)
    requires MaximalClusters(legs, tolerance, kind, n, runs)
    ensures runs == Runs(legs, tolerance, kind, n)
  {
    if n == 0 {
      assert |runs| > 0 ==> |Joined(runs)| > 0;
      return;
    }
    hide Joined, Separated, PushRun, Near;
    if legs[n - 1].kind != kind {
      MaximalIsUnique(legs, tolerance, kind, n - 1, runs);
    } else {
      var t := Touch(n - 1, legs[n - 1].price);
      var shorter, matches := PopTouch(runs, TouchesOf(legs, kind, n - 1), t);
      PushSeparated(shorter, matches, t, tolerance);
      MaximalIsUnique(legs, tolerance, kind, n - 1, shorter);
    }
  }

  lemma {:induction false} PopTouch(runs: seq<Run>, rest: seq<Touch>, t: Touch)
    returns (shorter: seq<Run>, matches: bool)
    requires Joined(runs) == rest + [t]
    ensures (matches ==> |shorter| > 0) && runs == PushRun(shorter, matches, t) && Joined(shorter) == rest
  {
    assert |runs| > 0;
    var init, last := runs[..|runs| - 1], runs[|runs| - 1];
    assert last.Members()[|last.later|] == Joined(runs)[|Joined(runs)| - 1] == t;
    matches := |last.later| > 0;
    if matches {
      shorter := init + [Run(last.anchor, last.later[..|last.later| - 1])];
      assert last.later == last.later[..|last.later| - 1] + [t];
    } else {
      shorter := init;
    }
    assert runs == init + [last] == PushRun(shorter, matches, t);
    JoinedPush(shorter, matches, t);
    assert Joined(shorter) == (Joined(shorter) + [t])[..|Joined(shorter)|] == (rest + [t])[..|rest|] == rest;
  }

  /** A later member of some run. */
  ghost predicate LaterMember(runs: seq<Run>, t: Touch) {
    exists r :: 0 <= r < |runs| && t in runs[r].later
  }

  lemma {:induction false} MatchIffLaterMember(legs: seq<Pivot>, tolerance: real, kind: Kind, n: nat, t: Touch)
    requires n <= |legs|
    ensures LaterMember(Runs(legs, tolerance, kind, n), t)
            <==> t.index < n && t.price == legs[t.index].price && legs[t.index].kind == kind
                 && MatchesAnchor(legs, tolerance, kind, t.index)
  {
    if n > 0 {
      MatchIffLaterMember(legs, tolerance, kind, n - 1, t);
      if legs[n - 1].kind == kind {
        PushLaterMember(Runs(legs, tolerance, kind, n - 1), MatchesAnchor(legs, tolerance, kind, n - 1),
                        Touch(n - 1, legs[n - 1].price), t);
      }
    }
  }

  lemma {:induction false} PushLaterMember(runs: seq<Run>, matches: bool, pushed: Touch, t: Touch)
    requires matches ==> |runs| > 0
    ensures LaterMember(PushRun(runs, matches, pushed), t) <==> LaterMember(runs, t) || (matches && t == pushed)
  {
    var after, m := PushRun(runs, matches, pushed), |runs| - 1;
    if LaterMember(runs, t) {
      var r :| 0 <= r < |runs| && t in runs[r].later;
      assert t in after[r].later;
    }
    if matches { assert after[m].later == runs[m].later + [pushed]; }
    if LaterMember(after, t) {
      var r :| 0 <= r < |after| && t in after[r].later;
      assert r < m ==> after[r] == runs[r];
    }
  }

  /** Swing `i` is a non-first member of one of the clusters. */
  ghost predicate NonFirstMember(levels: seq<EqualLevel>, i: nat, price: real) {
    exists l :: 0 <= l < |levels| && Touch(i, price) in levels[l].run.later
  }

  lemma {:induction false} LevelsKeepLaterMembers(kind: Kind, runs: seq<Run>, i: nat, price: real)
    ensures NonFirstMember(Levels(kind, runs), i, price) <==> LaterMember(runs, Touch(i, price))
  {
    if |runs| > 0 {
      var init, last := runs[..|runs| - 1], runs[|runs| - 1];
      LevelsKeepLaterMembers(kind, init, i, price);
      var before, tail := Levels(kind, init), LevelOf(kind, last);
      var all := before + tail;
      assert forall l :: 0 <= l < |before| ==> all[l] == before[l];
      if LaterMember(runs, Touch(i, price)) && !LaterMember(init, Touch(i, price)) {
        assert all[|before|].run.later == last.later;
      }
      if NonFirstMember(before, i, price) {
        var l :| 0 <= l < |before| && Touch(i, price) in before[l].run.later;
        assert Touch(i, price) in all[l].run.later;
      }
    }
  }

  /** A swing carries the equal flag exactly when it is a non-first member of an equal level. */
  lemma {:induction false} EqualFlagIffNonFirstMember(pivots: seq<Pivot>, tolerance: real, i: nat)
    requires i < |Legs(pivots)|
    ensures var ms := StructureOf(pivots, tolerance);
            var s := ms.swings[i];
            && s.equal.Some? == NonFirstMember(if s.kind == High then ms.equalHighs else ms.equalLows, i, s.price)
            && (s.equal.Some? ==> s.equal.value == EqualKindOf(s.kind))
  {
    var legs := Legs(pivots);
    var n, kind := |legs|, legs[i].kind;
    SwingsOfAt(legs, tolerance, n, i);
    MatchIffLaterMember(legs, tolerance, kind, n, Touch(i, legs[i].price));
    LevelsKeepLaterMembers(kind, Runs(legs, tolerance, kind, n), i, legs[i].price);
  }

  // ---------------------------------------------------------------- the structure in prices

  /** A leg's label in prices: against the leg two before it, strictly higher highs and strictly lower lows. */
  lemma {:induction false} LabelOnPrices(legs: seq<Pivot>, i: nat)
    requires i < |legs|
    ensures i < 2 ==> LabelAt(legs, i) == None
    ensures i >= 2 ==>
              LabelAt(legs, i) == Some(match legs[i].kind
                                       case High => if legs[i].price > legs[i - 2].price then HH else LH
                                       case Low => if legs[i].price < legs[i - 2].price then LL else HL)
  {}

  /** Leg `i` lies strictly above the leg two before it; `Falls`, strictly below. */
  ghost predicate Rises(legs: seq<Pivot>, i: int) { 2 <= i < |legs| && legs[i].price > legs[i - 2].price }

  ghost predicate Falls(legs: seq<Pivot>, i: int) { 2 <= i < |legs| && legs[i].price < legs[i - 2].price }

  /** The trend in prices: up with a risen high and a low that did not fall, down with a fallen low and a high that did
      not rise, a range before four legs and otherwise. */
  lemma {:induction false} TrendOnPrices(legs: seq<Pivot>, n: nat)
    requires Alternating(legs) && n <= |legs|
    ensures n < 4 ==> TrendAfter(legs, n) == Range
    ensures n >= 4 ==>
              var (high, low) := if legs[n - 1].kind == High then (n - 1, n - 2) else (n - 2, n - 1);
              && (TrendAfter(legs, n) == Uptrend <==> Rises(legs, high) && !Falls(legs, low))
              && (TrendAfter(legs, n) == Downtrend <==> !Rises(legs, high) && Falls(legs, low))
  {
    if n >= 2 {
      assert legs[n - 1].kind != legs[n - 2].kind;
      LabelOnPrices(legs, n - 1);
      LabelOnPrices(legs, n - 2);
      hide LabelAt;
    }
  }

  /** A break in prices: in a trend, a high that rose or a low that fell; with the trend it is a BOS, against it a
      CHoCH. */
  lemma {:induction false} EventOnPrices(legs: seq<Pivot>, i: nat)
    requires i < |legs|
    ensures var trend, up, down := TrendAfter(legs, i), legs[i].kind == High && Rises(legs, i),
              legs[i].kind == Low && Falls(legs, i);
            && (EventAt(legs, i) == Some(Bos) <==> (trend == Uptrend && up) || (trend == Downtrend && down))
            && (EventAt(legs, i) == Some(Choch) <==> (trend == Uptrend && down) || (trend == Downtrend && up))
  {
    LabelOnPrices(legs, i);
    hide LabelAt, TrendAfter;
  }

  /** Near is within the tolerance as a share of the anchor, either way, the ends included. */
  lemma {:induction false} NearOnPrices(price: real, anchor: real, tolerance: real)
    ensures Near(price, anchor, tolerance) <==> anchor - anchor * tolerance <= price <= anchor + anchor * tolerance
  {}

  lemma {:induction false} TouchIsLeg(legs: seq<Pivot>, kind: Kind, n: nat, t: Touch)
    requires n <= |legs|
    ensures t in TouchesOf(legs, kind, n)
            <==> t.index < n && legs[t.index].kind == kind && t.price == legs[t.index].price
  {
    if n > 0 { TouchIsLeg(legs, kind, n - 1, t); }
  }

  lemma {:induction false} MemberIsJoined(runs: seq<Run>, r: nat, t: Touch)
    requires r < |runs| && t in runs[r].Members()
    ensures t in Joined(runs)
  {
    if r < |runs| - 1 { MemberIsJoined(runs[..|runs| - 1], r, t); }
  }

  /** Equal highs are highs and equal lows lows, each member a swing at its own price. */
  lemma {:induction false} LevelsOnSwings(p: seq<Pivot>, tolerance: real, level: EqualLevel, t: Touch)
    requires var ms := StructureOf(p, tolerance); level in ms.equalHighs + ms.equalLows && t in level.run.Members()
    ensures var swings := StructureOf(p, tolerance).swings;
            && t.index < |swings| && swings[t.index].price == t.price
            && swings[t.index].kind == (match level.kind case Eqh => High case Eql => Low)
            && (level in StructureOf(p, tolerance).equalHighs <==> level.kind == Eqh)
            && |level.run.later| >= 1
  {
    hide StructureOf, Runs, Levels, Legs;
    LevelParts(p, tolerance);
    var legs := Legs(p);
    LevelIn(High, Runs(legs, tolerance, High, |legs|), level);
    LevelIn(Low, Runs(legs, tolerance, Low, |legs|), level);
    var kind := if level in StructureOf(p, tolerance).equalHighs then High else Low;
    var runs := Runs(legs, tolerance, kind, |legs|);
    var r: nat :| r < |runs| && LevelOf(kind, runs[r]) == [level];
    RunsAreMaximal(legs, tolerance, kind, |legs|);
    MemberIsJoined(runs, r, t);
    TouchIsLeg(legs, kind, |legs|, t);
    SwingShape(p, tolerance, t.index);
  }

  lemma {:induction false} LevelParts(p: seq<Pivot>, tolerance: real)
    ensures var ms, legs := StructureOf(p, tolerance), Legs(p);
            && ms.equalHighs == Levels(High, Runs(legs, tolerance, High, |legs|))
            && ms.equalLows == Levels(Low, Runs(legs, tolerance, Low, |legs|))
  {}

  lemma {:induction false} LevelIn(kind: Kind, runs: seq<Run>, level: EqualLevel)
    ensures level in Levels(kind, runs) ==>
              level.kind == EqualKindOf(kind) && exists r: nat :: r < |runs| && LevelOf(kind, runs[r]) == [level]
  {
    if |runs| > 0 { LevelIn(kind, runs[..|runs| - 1], level); }
  }

  /** The last high and the last low are that, and the event swing is the last break. */
  lemma {:induction false} LastSwingsOnLegs(p: seq<Pivot>, tolerance: real)
    ensures var ms, legs := StructureOf(p, tolerance), Legs(p);
            && (forall i :: 0 <= i < |legs| && legs[i].kind == High ==> ms.lastHigh.Some? && i <= ms.lastHigh.value)
            && (ms.lastHigh.Some? ==> ms.lastHigh.value < |legs| && legs[ms.lastHigh.value].kind == High)
            && (forall i :: 0 <= i < |legs| && legs[i].kind == Low ==> ms.lastLow.Some? && i <= ms.lastLow.value)
            && (ms.lastLow.Some? ==> ms.lastLow.value < |legs| && legs[ms.lastLow.value].kind == Low)
            && (forall i :: 0 <= i < |legs| && EventAt(legs, i).Some? ==>
                  ms.eventSwing.Some? && i <= ms.eventSwing.value)
            && (ms.eventSwing.Some? ==>
                  ms.eventSwing.value < |legs| && EventAt(legs, ms.eventSwing.value) == ms.event && ms.event.Some?)
  {
    LastKind(Legs(p), High, |Legs(p)|);
    LastKind(Legs(p), Low, |Legs(p)|);
    LastBreakIs(Legs(p), |Legs(p)|);
    hide Legs, EventAt, LastOfKind, LastBreak, SwingsOf, Levels, Runs, TrendAfter;
  }

  lemma {:induction false} LastKind(legs: seq<Pivot>, kind: Kind, n: nat)
    requires n <= |legs|
    ensures var last := LastOfKind(legs, kind, n);
            && (last.Some? ==> last.value < n && legs[last.value].kind == kind)
            && (forall i :: 0 <= i < n && legs[i].kind == kind ==> last.Some? && i <= last.value)
  {
    if n > 0 { LastKind(legs, kind, n - 1); }
  }

  lemma {:induction false} LastBreakIs(legs: seq<Pivot>, n: nat)
    requires n <= |legs|
    ensures var last := LastBreak(legs, n);
            && (last.Some? ==> last.value < n && EventAt(legs, last.value).Some?)
            && (forall i :: 0 <= i < n && EventAt(legs, i).Some? ==> last.Some? && i <= last.value)
  {
    hide EventAt;
    if n > 0 { LastBreakIs(legs, n - 1); }
  }
}
