/** Market structure (engine/smc/structure.py): alternating legs, labels, breaks and equal levels.

    Objects the source compares by identity (`last_high`, `event_swing`, cluster members) are
    represented by their index in the swing list. */
module Structure {
  import opened Types

  datatype Label = HH | HL | LH | LL
  datatype Trend = Uptrend | Downtrend | Range
  datatype Event = Bos | Choch
  datatype EqualKind = Eqh | Eql

  datatype Swing = Swing(time: int, price: real, kind: Kind,
                         mark: Option<Label>, event: Option<Event>, equal: Option<EqualKind>)

  /** A swing held in a run: its place in the swing list and its price. */
  datatype Touch = Touch(index: nat, price: real)

  /** A run of same-kind swings near its first member. */
  datatype Run = Run(anchor: Touch, later: seq<Touch>) {
    function Members(): seq<Touch> { [anchor] + later }
  }

  /** A cluster of equal swings: the run's outermost price and its members in time order. */
  datatype EqualLevel = EqualLevel(kind: EqualKind, price: real, run: Run)

  datatype MarketStructure = MarketStructure(
    swings: seq<Swing>, trend: Trend, lastHigh: Option<nat>, lastLow: Option<nat>,
    event: Option<Event>, eventSwing: Option<nat>,
    equalHighs: seq<EqualLevel>, equalLows: seq<EqualLevel>)

  const EQUAL_LEVEL_TOLERANCE := 0.001

  // ---------------------------------------------------------------- alternating legs

  /** `a` lies strictly further out than `b` in the direction of `kind`. */
  predicate Outside(kind: Kind, a: real, b: real) {
    if kind == High then a > b else a < b
  }

  function PushPivot(legs: seq<Pivot>, p: Pivot): seq<Pivot> {
    if |legs| == 0 || legs[|legs| - 1].kind != p.kind then legs + [p]
    else if Outside(p.kind, p.price, legs[|legs| - 1].price) then legs[|legs| - 1 := p]
    else legs
  }

  /** The fold of `PushPivot`; `LegsAreRunExtremes` says what it computes. */
  function Legs(pivots: seq<Pivot>): seq<Pivot> {
    if |pivots| == 0 then [] else PushPivot(Legs(pivots[..|pivots| - 1]), pivots[|pivots| - 1])
  }

  method ToAlternatingSwings(pivots: seq<Pivot>) returns (legs: seq<Pivot>)
    ensures legs == Legs(pivots)
  {
    legs := [];
    for i := 0 to |pivots|
      invariant legs == Legs(pivots[..i])
    {
      assert pivots[..i + 1][..i] == pivots[..i];
      if |legs| == 0 || legs[|legs| - 1].kind != pivots[i].kind {
        legs := legs + [pivots[i]];
      } else if Outside(pivots[i].kind, pivots[i].price, legs[|legs| - 1].price) {
        legs := legs[|legs| - 1 := pivots[i]];
      }
    }
    assert pivots[..|pivots|] == pivots;
  }

  ghost predicate Alternating(legs: seq<Pivot>) {
    forall i, j :: 0 <= i < j < |legs| && j == i + 1 ==> legs[j].kind != legs[i].kind
  }

  lemma {:induction false} LegsAlternate(pivots: seq<Pivot>)
    ensures Alternating(Legs(pivots))
    ensures |pivots| > 0 ==> |Legs(pivots)| > 0
                             && Legs(pivots)[|Legs(pivots)| - 1].kind == pivots[|pivots| - 1].kind
  {
    if |pivots| > 0 { LegsAlternate(pivots[..|pivots| - 1]); }
  }

  /** `runs` cuts the pivots into maximal same-kind runs. */
  ghost predicate MaximalRuns(runs: seq<seq<Pivot>>, p: seq<Pivot>) {
    && Flatten(runs) == p
    && (forall k :: 0 <= k < |runs| ==> OneKind(runs[k]))
    && (forall j, k :: 0 <= j < k < |runs| && k == j + 1 ==> runs[k][0].kind != runs[j][0].kind)
  }

  ghost predicate OneKind(run: seq<Pivot>) {
    |run| > 0 && forall i :: 0 <= i < |run| ==> run[i].kind == run[0].kind
  }

  ghost predicate ExtremeAt(run: seq<Pivot>, leg: Pivot, i: nat) {
    && i < |run| && leg == run[i]
    && (forall j :: 0 <= j < |run| ==> !Outside(leg.kind, run[j].price, leg.price))
    && (forall j :: 0 <= j < i ==> Outside(leg.kind, leg.price, run[j].price))
  }

  /** `leg` is the earliest pivot of the run that no other pivot of the run lies outside of. */
  ghost predicate EarliestExtreme(run: seq<Pivot>, leg: Pivot) {
    exists i: nat :: ExtremeAt(run, leg, i)
  }

  lemma {:induction false} FlattenGrow(runs: seq<seq<Pivot>>, x: Pivot)
    ensures Flatten(runs + [[x]]) == Flatten(runs) + [x]
    ensures |runs| > 0 ==> Flatten(runs[..|runs| - 1] + [runs[|runs| - 1] + [x]]) == Flatten(runs) + [x]
  {
    assert (runs + [[x]])[..|runs|] == runs;
    if |runs| > 0 {
      var init, last := runs[..|runs| - 1], runs[|runs| - 1];
      assert (init + [last + [x]])[..|init|] == init;
      assert Flatten(init) + (last + [x]) == (Flatten(init) + last) + [x];
    }
  }

  /** Every pivot list has a maximal-run cut, so the next lemma speaks of all of them. */
  lemma {:induction false} MaximalRunsExist(p: seq<Pivot>) returns (runs: seq<seq<Pivot>>)
    ensures MaximalRuns(runs, p)
  {
    if |p| == 0 {
      runs := [];
      assert Flatten(runs) == p;
    } else {
      var n := |p| - 1;
      var rs: seq<seq<Pivot>> := MaximalRunsExist(p[..n]);
      if |rs| > 0 && rs[|rs| - 1][0].kind == p[n].kind {
        runs := rs[..|rs| - 1] + [rs[|rs| - 1] + [p[n]]];
        LastRunGrows(rs, p[..n], p[n]);
      } else {
        runs := rs + [[p[n]]];
        RunStarts(rs, p[..n], p[n]);
      }
      hide MaximalRuns;
      assert p == p[..n] + [p[n]];
    }
  }

  lemma {:induction false} LastRunGrows(rs: seq<seq<Pivot>>, p: seq<Pivot>, x: Pivot)
    requires MaximalRuns(rs, p) && |rs| > 0 && rs[|rs| - 1][0].kind == x.kind
    ensures MaximalRuns(rs[..|rs| - 1] + [rs[|rs| - 1] + [x]], p + [x])
  {
    FlattenGrow(rs, x);
    hide Flatten;
    assert OneKind(rs[|rs| - 1] + [x]);
  }

  lemma {:induction false} RunStarts(rs: seq<seq<Pivot>>, p: seq<Pivot>, x: Pivot)
    requires MaximalRuns(rs, p) && (|rs| > 0 ==> rs[|rs| - 1][0].kind != x.kind)
    ensures MaximalRuns(rs + [[x]], p + [x])
  {
    FlattenGrow(rs, x);
    hide Flatten;
  }

  /** Leg k is the earliest extreme of run k, and there are no other legs. */
  ghost predicate ExtremesOf(runs: seq<seq<Pivot>>, legs: seq<Pivot>) {
    |legs| == |runs| && forall k :: 0 <= k < |runs| ==> EarliestExtreme(runs[k], legs[k])
  }

  lemma {:induction false} LegsAreRunExtremes(p: seq<Pivot>, runs: seq<seq<Pivot>>)
    requires MaximalRuns(runs, p)
    ensures ExtremesOf(runs, Legs(p))
    decreases |p|
  {
    hide Legs, Flatten, EarliestExtreme, PushPivot;
    if |runs| == 0 {
      NoRunsNoLegs(p, runs);
    } else {
      var shorter := DropLastPivot(p, runs);
      var q := p[..|p| - 1];
      LegsAreRunExtremes(q, shorter);
      LegsAlternate(q);
      LegsStep(p, runs, shorter);
    }
  }

  lemma {:induction false} NoRunsNoLegs(p: seq<Pivot>, runs: seq<seq<Pivot>>)
    requires MaximalRuns(runs, p) && |runs| == 0
    ensures Legs(p) == []
  {}

  lemma {:induction false} OneMember(run: seq<Pivot>, leg: Pivot)
    requires |run| == 1 && leg == run[0]
    ensures EarliestExtreme(run, leg)
  {
    assert ExtremeAt(run, leg, 0);
  }

  lemma {:induction false} LegsStep(p: seq<Pivot>, runs: seq<seq<Pivot>>, shorter: seq<seq<Pivot>>)
    requires |p| > 0 && |runs| > 0
    requires var q, m := p[..|p| - 1], |runs| - 1; var last := runs[m];
             && OneKind(last) && last[|last| - 1] == p[|p| - 1]
             && shorter == (if |last| == 1 then runs[..m] else runs[..m] + [last[..|last| - 1]])
             && ExtremesOf(shorter, Legs(q))
             && (|q| > 0 ==> |Legs(q)| > 0 && Legs(q)[|Legs(q)| - 1].kind == q[|q| - 1].kind)
             && (|last| > 1 ==> |q| > 0 && q[|q| - 1].kind == p[|p| - 1].kind)
             && (|last| == 1 && m > 0 ==> |q| > 0 && q[|q| - 1].kind != p[|p| - 1].kind)
    ensures ExtremesOf(runs, Legs(p))
  {
    var before, m := Legs(p[..|p| - 1]), |runs| - 1;
    var last := runs[m];
    var after := PushPivot(before, last[|last| - 1]);
    assert Legs(p) == after && |after| == |runs|;
    hide Legs, EarliestExtreme;
    assert EarliestExtreme(last, after[m]) by {
      if |last| > 1 {
        assert EarliestExtreme(shorter[m], before[m]);
        ExtremeStep(last, before[m]);
      } else {
        OneMember(last, after[m]);
      }
    }
    forall k | 0 <= k < m
      ensures EarliestExtreme(runs[k], after[k])
    {
      assert shorter[k] == runs[k] && after[k] == before[k];
    }
  }

  lemma {:induction false} DropLastPivot(p: seq<Pivot>, runs: seq<seq<Pivot>>) returns (shorter: seq<seq<Pivot>>)
    requires MaximalRuns(runs, p) && |runs| > 0
    ensures |p| > 0 && MaximalRuns(shorter, p[..|p| - 1])
    ensures var m := |runs| - 1; var last := runs[m];
            && last[|last| - 1] == p[|p| - 1]
            && shorter == (if |last| == 1 then runs[..m] else runs[..m] + [last[..|last| - 1]])
            && (|last| > 1 || m > 0 ==> |p| > 1)
            && (|last| > 1 ==> p[|p| - 2].kind == p[|p| - 1].kind)
            && (|last| == 1 && m > 0 ==> p[|p| - 2].kind != p[|p| - 1].kind)
  {
    var n, m := |p| - 1, |runs| - 1;
    var last := runs[m];
    assert p == Flatten(runs[..m]) + last;
    if |last| == 1 {
      shorter := runs[..m];
      if m > 0 {
        var prev := runs[m - 1];
        assert runs[..m][..m - 1] == runs[..m - 1];
        assert Flatten(runs[..m]) == Flatten(runs[..m - 1]) + prev;
        assert p[n - 1] == prev[|prev| - 1];
      }
    } else {
      shorter := runs[..m] + [last[..|last| - 1]];
      assert shorter[..m] == runs[..m];
      assert p[n - 1] == last[|last| - 2];
    }
    assert Flatten(shorter) == p[..n];
  }

  lemma {:induction false} ExtremeStep(run: seq<Pivot>, leg: Pivot)
    requires |run| > 1 && OneKind(run) && EarliestExtreme(run[..|run| - 1], leg)
    ensures var p := run[|run| - 1];
            EarliestExtreme(run, if Outside(p.kind, p.price, leg.price) then p else leg)
  {
    var p, init := run[|run| - 1], run[..|run| - 1];
    var i: nat :| ExtremeAt(init, leg, i);
    assert forall j :: 0 <= j < |init| ==> run[j] == init[j];
    assert p.kind == leg.kind;
    if Outside(p.kind, p.price, leg.price) {
      assert ExtremeAt(run, p, |init|);
    } else {
      assert ExtremeAt(run, leg, i);
    }
  }

  /** Appended pivots freeze every leg but the last, which keeps its kind and only moves outward. */
  ghost predicate LegExtends(before: Pivot, after: Pivot) {
    after.kind == before.kind && (after == before || Outside(before.kind, after.price, before.price))
  }

  lemma {:induction false} LegsFrozen(p: seq<Pivot>, q: seq<Pivot>)
    ensures |Legs(p)| <= |Legs(p + q)|
    ensures forall i :: 0 <= i < |Legs(p)| - 1 ==> Legs(p + q)[i] == Legs(p)[i]
    ensures |Legs(p)| > 0 ==> LegExtends(Legs(p)[|Legs(p)| - 1], Legs(p + q)[|Legs(p)| - 1])
    decreases |q|
  {
    if |q| == 0 {
      assert p + q == p;
    } else {
      LegsFrozen(p, q[..|q| - 1]);
      assert (p + q)[..|p + q| - 1] == p + q[..|q| - 1];
    }
  }

  // ---------------------------------------------------------------- labels, trend and breaks

  function TrendFrom(highMark: Option<Label>, lowMark: Option<Label>): Trend {
    if highMark == Some(HH) && lowMark == Some(HL) then Uptrend
    else if highMark == Some(LH) && lowMark == Some(LL) then Downtrend
    else Range
  }

  /** A leg's label compares it with the leg two before: on alternating legs, the prior same-kind one. */
  function LabelAt(legs: seq<Pivot>, i: nat): Option<Label>
    requires i < |legs|
  {
    if i < 2 then None
    else if Outside(legs[i].kind, legs[i].price, legs[i - 2].price)
    then Some(if legs[i].kind == High then HH else LL)
    else Some(if legs[i].kind == High then LH else HL)
  }

  /** The trend once the first `n` legs are labelled: it reads the last two labels only. */
  function TrendAfter(legs: seq<Pivot>, n: nat): Trend
    requires n <= |legs|
  {
    if n < 2 then Range
    else if legs[n - 1].kind == High then TrendFrom(LabelAt(legs, n - 1), LabelAt(legs, n - 2))
    else TrendFrom(LabelAt(legs, n - 2), LabelAt(legs, n - 1))
  }

  /** A strict break while a trend stands: against it a CHoCH, with it a BOS. */
  function EventFrom(mark: Option<Label>, prior: Trend): Option<Event> {
    if prior == Range || mark == None || mark.value == LH || mark.value == HL then None
    else if (mark.value == HH && prior == Downtrend) || (mark.value == LL && prior == Uptrend) then Some(Choch)
    else Some(Bos)
  }

  function EventAt(legs: seq<Pivot>, i: nat): Option<Event>
    requires i < |legs|
  {
    EventFrom(LabelAt(legs, i), TrendAfter(legs, i))
  }

  function LastOfKind(legs: seq<Pivot>, kind: Kind, n: nat): Option<nat>
    requires n <= |legs|
  {
    if n == 0 then None else if legs[n - 1].kind == kind then Some(n - 1) else LastOfKind(legs, kind, n - 1)
  }

  /** The latest swing among the first `n` that broke structure. */
  function LastBreak(legs: seq<Pivot>, n: nat): Option<nat>
    requires n <= |legs|
    ensures LastBreak(legs, n).Some? ==> LastBreak(legs, n).value < n
  {
    if n == 0 then None else if EventAt(legs, n - 1).Some? then Some(n - 1) else LastBreak(legs, n - 1)
  }

  // ---------------------------------------------------------------- equal levels

  predicate Near(price: real, anchor: real, tolerance: real) {
    Abs(price - anchor) <= anchor * tolerance
  }

  /** Runs of same-kind legs among the first `n`, each within tolerance of its anchor; the last run
      is still open. `RunsCharacterized` says the same without the fold. */
  function Runs(legs: seq<Pivot>, tolerance: real, kind: Kind, n: nat): seq<Run>
    requires n <= |legs|
    decreases n, 0
  {
    if n == 0 then []
    else if legs[n - 1].kind != kind then Runs(legs, tolerance, kind, n - 1)
    else PushRun(Runs(legs, tolerance, kind, n - 1), MatchesAnchor(legs, tolerance, kind, n - 1),
                 Touch(n - 1, legs[n - 1].price))
  }

  function PushRun(runs: seq<Run>, matches: bool, t: Touch): seq<Run>
    requires matches ==> |runs| > 0
  {
    if matches then runs[..|runs| - 1] + [Run(runs[|runs| - 1].anchor, runs[|runs| - 1].later + [t])]
    else runs + [Run(t, [])]
  }

  /** Leg `i` is near the anchor of the run that is open when it arrives. */
  predicate MatchesAnchor(legs: seq<Pivot>, tolerance: real, kind: Kind, i: nat)
    requires i < |legs|
    decreases i, 1
  {
    var runs := Runs(legs, tolerance, kind, i);
    |runs| > 0 && Near(legs[i].price, runs[|runs| - 1].anchor.price, tolerance)
  }

  function EqualKindOf(kind: Kind): EqualKind { if kind == High then Eqh else Eql }

  /** The outermost price of a run; `OutermostIsExtreme` pins it. */
  function Outermost(kind: Kind, start: real, later: seq<Touch>): real {
    if |later| == 0 then start
    else
      var rest, last := Outermost(kind, start, later[..|later| - 1]), later[|later| - 1].price;
      if Outside(kind, last, rest) then last else rest
  }

  lemma {:induction false} OutermostIsExtreme(kind: Kind, start: real, later: seq<Touch>)
    ensures !Outside(kind, start, Outermost(kind, start, later))
    ensures forall t :: t in later ==> !Outside(kind, t.price, Outermost(kind, start, later))
    ensures Outermost(kind, start, later) == start || exists t :: t in later && t.price == Outermost(kind, start, later)
  {
    if |later| > 0 {
      OutermostIsExtreme(kind, start, later[..|later| - 1]);
      assert later == later[..|later| - 1] + [later[|later| - 1]];
    }
  }

  /** The clusters: runs with at least two members, each at its outermost price. */
  function Levels(kind: Kind, runs: seq<Run>): seq<EqualLevel> {
    if |runs| == 0 then [] else Levels(kind, runs[..|runs| - 1]) + LevelOf(kind, runs[|runs| - 1])
  }

  function LevelOf(kind: Kind, run: Run): seq<EqualLevel> {
    if |run.later| == 0 then []
    else [EqualLevel(EqualKindOf(kind), Outermost(kind, run.anchor.price, run.later), run)]
  }

  // ---------------------------------------------------------------- the whole structure

  function SwingAt(legs: seq<Pivot>, tolerance: real, i: nat): Swing
    requires i < |legs|
  {
    var leg := legs[i];
    Swing(leg.time, leg.price, leg.kind, LabelAt(legs, i), EventAt(legs, i),
          if MatchesAnchor(legs, tolerance, leg.kind, i) then Some(EqualKindOf(leg.kind)) else None)
  }

  function SwingsOf(legs: seq<Pivot>, tolerance: real, n: nat): (swings: seq<Swing>)
    requires n <= |legs|
    ensures |swings| == n
  {
    if n == 0 then [] else SwingsOf(legs, tolerance, n - 1) + [SwingAt(legs, tolerance, n - 1)]
  }

  lemma {:induction false} SwingsOfAt(legs: seq<Pivot>, tolerance: real, n: nat, i: nat)
    requires i < n <= |legs|
    ensures SwingsOf(legs, tolerance, n)[i] == SwingAt(legs, tolerance, i)
  {
    if i < n - 1 { SwingsOfAt(legs, tolerance, n - 1, i); }
  }

  /** What the one-pass fold computes, swing by swing and with no running state. */
  function StructureOf(pivots: seq<Pivot>, tolerance: real): MarketStructure {
    var legs := Legs(pivots);
    var n := |legs|;
    var broke := LastBreak(legs, n);
    MarketStructure(
      SwingsOf(legs, tolerance, n), TrendAfter(legs, n), LastOfKind(legs, High, n), LastOfKind(legs, Low, n),
      if broke.Some? then EventAt(legs, broke.value) else None, broke,
      Levels(High, Runs(legs, tolerance, High, n)), Levels(Low, Runs(legs, tolerance, Low, n)))
  }

  /** Closing a run emits it as a level exactly when it holds two members. */
  method CloseRun(kind: Kind, run: Option<Run>, out: seq<EqualLevel>) returns (closed: seq<EqualLevel>)
    ensures closed == out + if run.Some? then LevelOf(kind, run.value) else []
  {
    if run.None? || |run.value.later| == 0 {
      return out;
    }
    var anchor, later := run.value.anchor, run.value.later;
    var price := anchor.price;
    for k := 0 to |later|
      invariant price == Outermost(kind, anchor.price, later[..k])
    {
      assert later[..k + 1][..k] == later[..k];
      if Outside(kind, later[k].price, price) {
        price := later[k].price;
      }
    }
    assert later[..|later|] == later;
    return out + [EqualLevel(EqualKindOf(kind), price, run.value)];
  }

  /** The open run and the levels already closed, as the fold keeps them after `n` legs. */
  ghost predicate RunState(kind: Kind, runs: seq<Run>, run: Option<Run>, closed: seq<EqualLevel>) {
    if |runs| == 0 then run == None && closed == []
    else run == Some(runs[|runs| - 1]) && closed == Levels(kind, runs[..|runs| - 1])
  }

  lemma {:induction false} LastTwoKinds(legs: seq<Pivot>, n: nat)
    requires Alternating(legs) && n <= |legs|
    ensures forall kind :: LastOfKind(legs, kind, n)
                           == if n > 0 && legs[n - 1].kind == kind then Some(n - 1)
                              else if n > 1 then Some(n - 2) else None
  {
    if n > 1 { assert legs[n - 1].kind != legs[n - 2].kind; }
  }

  /** One swing joins the open run of its kind, or closes it and starts the next. */
  method GrowRun(kind: Kind, ghost runs: seq<Run>, matches: bool, t: Touch, run: Option<Run>, closed: seq<EqualLevel>)
    returns (run': Option<Run>, closed': seq<EqualLevel>)
    requires RunState(kind, runs, run, closed) && (matches ==> run.Some?)
    ensures RunState(kind, PushRun(runs, matches, t), run', closed')
  {
    if matches {
      run', closed' := Some(run.value.(later := run.value.later + [t])), closed;
    } else {
      closed' := CloseRun(kind, run, closed);
      run' := Some(Run(t, []));
    }
  }

  ghost predicate BothRuns(legs: seq<Pivot>, tolerance: real, n: nat, highRun: Option<Run>, equalHighs: seq<EqualLevel>,
                           lowRun: Option<Run>, equalLows: seq<EqualLevel>) {
    && n <= |legs|
    && RunState(High, Runs(legs, tolerance, High, n), highRun, equalHighs)
    && RunState(Low, Runs(legs, tolerance, Low, n), lowRun, equalLows)
  }

  method GrowRuns(legs: seq<Pivot>, ghost tolerance: real, i: nat, matches: bool,
                  highRun: Option<Run>, equalHighs: seq<EqualLevel>, lowRun: Option<Run>, equalLows: seq<EqualLevel>)
    returns (highRun': Option<Run>, equalHighs': seq<EqualLevel>, lowRun': Option<Run>, equalLows': seq<EqualLevel>)
    requires i < |legs| && BothRuns(legs, tolerance, i, highRun, equalHighs, lowRun, equalLows)
    requires matches == MatchesAnchor(legs, tolerance, legs[i].kind, i)
    ensures BothRuns(legs, tolerance, i + 1, highRun', equalHighs', lowRun', equalLows')
  {
    highRun', equalHighs', lowRun', equalLows' := highRun, equalHighs, lowRun, equalLows;
    var touch := Touch(i, legs[i].price);
    if legs[i].kind == High {
      highRun', equalHighs' := GrowRun(High, Runs(legs, tolerance, High, i), matches, touch, highRun, equalHighs);
    } else {
      lowRun', equalLows' := GrowRun(Low, Runs(legs, tolerance, Low, i), matches, touch, lowRun, equalLows);
    }
  }

  /** The swing built from the running state is the closed form's. */
  method BuildSwing(legs: seq<Pivot>, tolerance: real, i: nat, lastHigh: Option<nat>, lastLow: Option<nat>,
                    trend: Trend, run: Option<Run>, ghost closed: seq<EqualLevel>)
    returns (swing: Swing, matches: bool)
    requires i < |legs| && Alternating(legs)
    requires lastHigh == LastOfKind(legs, High, i) && lastLow == LastOfKind(legs, Low, i)
    requires trend == TrendAfter(legs, i) && RunState(legs[i].kind, Runs(legs, tolerance, legs[i].kind, i), run, closed)
    ensures swing == SwingAt(legs, tolerance, i) && swing.event == EventAt(legs, i)
    ensures matches == MatchesAnchor(legs, tolerance, legs[i].kind, i)
  {
    LastTwoKinds(legs, i);
    if i > 0 { assert legs[i].kind != legs[i - 1].kind; }
    var pivot := legs[i];
    var mark: Option<Label> := None;
    if pivot.kind == High {
      if lastHigh.Some? { mark := Some(if pivot.price > legs[lastHigh.value].price then HH else LH); }
    } else if lastLow.Some? {
      mark := Some(if pivot.price < legs[lastLow.value].price then LL else HL);
    }
    var event: Option<Event> := None;
    if (mark == Some(HH) || mark == Some(LL)) && trend != Range {
      var reverses := (mark == Some(HH) && trend == Downtrend) || (mark == Some(LL) && trend == Uptrend);
      event := Some(if reverses then Choch else Bos);
    }
    matches := run.Some? && Near(pivot.price, run.value.anchor.price, tolerance);
    swing := Swing(pivot.time, pivot.price, pivot.kind, mark, event,
                   if matches then Some(EqualKindOf(pivot.kind)) else None);
  }

  lemma {:induction false} TrendOfLastLabels(legs: seq<Pivot>, n: nat)
    requires Alternating(legs) && n <= |legs|
    ensures var high, low := LastOfKind(legs, High, n), LastOfKind(legs, Low, n);
            (high.Some? ==> high.value < n) && (low.Some? ==> low.value < n)
            && TrendAfter(legs, n) == TrendFrom(if high.Some? then LabelAt(legs, high.value) else None,
                                                if low.Some? then LabelAt(legs, low.value) else None)
  {
    LastTwoKinds(legs, n);
    if n > 1 { assert legs[n - 1].kind != legs[n - 2].kind; }
  }

  /** The trend read off the last swing of each kind. */
  method ReadTrend(legs: seq<Pivot>, tolerance: real, n: nat, swings: seq<Swing>, lastHigh: Option<nat>,
                   lastLow: Option<nat>)
    returns (trend: Trend)
    requires Alternating(legs) && n <= |legs| && swings == SwingsOf(legs, tolerance, n)
    requires lastHigh == LastOfKind(legs, High, n) && lastLow == LastOfKind(legs, Low, n)
    ensures trend == TrendAfter(legs, n)
  {
    TrendOfLastLabels(legs, n);
    if lastHigh.Some? { SwingsOfAt(legs, tolerance, n, lastHigh.value); }
    if lastLow.Some? { SwingsOfAt(legs, tolerance, n, lastLow.value); }
    return TrendFrom(if lastHigh.Some? then swings[lastHigh.value].mark else None,
                     if lastLow.Some? then swings[lastLow.value].mark else None);
  }

  method ComputeMarketStructure(pivots: seq<Pivot>, tolerance: real) returns (ms: MarketStructure)
    ensures ms == StructureOf(pivots, tolerance)
  {
    var legs := ToAlternatingSwings(pivots);
    LegsAlternate(pivots);
    var swings: seq<Swing> := [];
    var lastHigh, lastLow: Option<nat>, trend, event: Option<Event>, eventSwing: Option<nat>
      := None, None, Range, None, None;
    var equalHighs, equalLows: seq<EqualLevel>, highRun: Option<Run>, lowRun: Option<Run> := [], [], None, None;
    assert BothRuns(legs, tolerance, 0, highRun, equalHighs, lowRun, equalLows) && trend == TrendAfter(legs, 0);
    hide Legs, Runs, LabelAt, TrendAfter, MatchesAnchor, Outermost, SwingAt, EventAt, Alternating;
    for i := 0 to |legs|
      invariant swings == SwingsOf(legs, tolerance, i)
      invariant lastHigh == LastOfKind(legs, High, i) && lastLow == LastOfKind(legs, Low, i)
      invariant trend == TrendAfter(legs, i)
      invariant eventSwing == LastBreak(legs, i)
      invariant event == if eventSwing.Some? then EventAt(legs, eventSwing.value) else None
      invariant BothRuns(legs, tolerance, i, highRun, equalHighs, lowRun, equalLows)
    {
      ghost var closed := if legs[i].kind == High then equalHighs else equalLows;
      var swing, matches := BuildSwing(legs, tolerance, i, lastHigh, lastLow, trend,
                                       if legs[i].kind == High then highRun else lowRun, closed);
      swings := swings + [swing];
      if swing.event.Some? {
        event, eventSwing := swing.event, Some(i);
      }
      highRun, equalHighs, lowRun, equalLows :=
        GrowRuns(legs, tolerance, i, matches, highRun, equalHighs, lowRun, equalLows);
      if legs[i].kind == High { lastHigh := Some(i); } else { lastLow := Some(i); }
      trend := ReadTrend(legs, tolerance, i + 1, swings, lastHigh, lastLow);
    }
    equalHighs := CloseRun(High, highRun, equalHighs);
    equalLows := CloseRun(Low, lowRun, equalLows);
    ms := MarketStructure(swings, trend, lastHigh, lastLow, event, eventSwing, equalHighs, equalLows);
  }
}
