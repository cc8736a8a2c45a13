/** Trend transitions (engine/smc/trend_transition.py): the hint/confirm automaton over swings. */
module TrendTransition {
  import opened Types
  import opened Structure
  import StructureFacts

  datatype Phase = ChochHint | Confirmed

  /** A transition record as a value; swings are indices. */
  datatype Transition = Transition(fromTrend: Trend, toTrend: Trend, phase: Phase,
                                   chochSwing: Option<nat>, confirmSwing: Option<nat>, time: int)

  /** The record object the derivation upgrades in place. */
  class TransitionRecord {
    const fromTrend: Trend
    const toTrend: Trend
    var phase: Phase
    const chochSwing: Option<nat>
    var confirmSwing: Option<nat>
    var time: int

    constructor (t: Transition)
      ensures Value() == t
    {
      fromTrend, toTrend, phase := t.fromTrend, t.toTrend, t.phase;
      chochSwing, confirmSwing, time := t.chochSwing, t.confirmSwing, t.time;
    }

    function Value(): Transition
      reads this
    {
      Transition(fromTrend, toTrend, phase, chochSwing, confirmSwing, time)
    }

    method Confirm(swing: nat, at: int)
      modifies this
      ensures Value() == old(Value()).(phase := Confirmed, confirmSwing := Some(swing), time := at)
    {
      phase, confirmSwing, time := Confirmed, Some(swing), at;
    }
  }

  // ---------------------------------------------------------------- labelled swings

  /** The trend after the first `n` swings, off the latest label of each kind. */
  function TrendOf(s: seq<Swing>, n: nat): Trend
    requires n <= |s|
  {
    if n < 2 then Range
    else if s[n - 1].kind == High then TrendFrom(s[n - 1].mark, s[n - 2].mark)
    else TrendFrom(s[n - 2].mark, s[n - 1].mark)
  }

  /** Swing `i` is labelled the way `compute_market_structure` labels it. */
  ghost predicate LabelledAt(s: seq<Swing>, i: nat)
    requires i < |s|
  {
    && (i >= 1 ==> s[i].kind != s[i - 1].kind)
    && (i < 2 ==> s[i].mark == None)
    && (i >= 2 ==> s[i].mark in if s[i].kind == High then {Some(HH), Some(LH)} else {Some(LL), Some(HL)})
    && s[i].event == EventFrom(s[i].mark, TrendOf(s, i))
  }

  ghost predicate Labelled(s: seq<Swing>) {
    forall i :: 0 <= i < |s| ==> LabelledAt(s, i)
  }

  lemma {:induction false} SwingReadsLeg(p: seq<Pivot>, tolerance: real, i: nat)
    requires i < |Legs(p)|
    ensures |StructureOf(p, tolerance).swings| == |Legs(p)|
    ensures StructureOf(p, tolerance).swings[i].mark == LabelAt(Legs(p), i)
    ensures StructureOf(p, tolerance).swings[i].kind == Legs(p)[i].kind
  {
    StructureFacts.SwingShape(p, tolerance, i);
  }

  lemma {:induction false} StructureTrend(p: seq<Pivot>, tolerance: real)
    ensures |StructureOf(p, tolerance).swings| == |Legs(p)|
    ensures StructureOf(p, tolerance).trend == TrendAfter(Legs(p), |Legs(p)|)
  {}

  lemma {:induction false} TrendReadsLegs(s: seq<Swing>, legs: seq<Pivot>, n: nat)
    requires n <= |s| == |legs|
    requires n >= 2 ==>
             && s[n - 1].mark == LabelAt(legs, n - 1) && s[n - 2].mark == LabelAt(legs, n - 2)
             && s[n - 1].kind == legs[n - 1].kind
    ensures TrendOf(s, n) == TrendAfter(legs, n)
  {}

  /** The trend this module re-derives from the labels is the one the structure keeps. */
  lemma {:induction false} TrendMatchesStructure(p: seq<Pivot>, tolerance: real, n: nat)
    requires n <= |Legs(p)|
    ensures |StructureOf(p, tolerance).swings| == |Legs(p)|
    ensures TrendOf(StructureOf(p, tolerance).swings, n) == TrendAfter(Legs(p), n)
    ensures n == |Legs(p)| ==> TrendOf(StructureOf(p, tolerance).swings, n) == StructureOf(p, tolerance).trend
  {
    StructureTrend(p, tolerance);
    if n >= 2 {
      SwingReadsLeg(p, tolerance, n - 1);
      SwingReadsLeg(p, tolerance, n - 2);
    }
    TrendReadsLegs(StructureOf(p, tolerance).swings, Legs(p), n);
  }

  lemma {:induction false} StructureIsLabelled(p: seq<Pivot>, tolerance: real)
    ensures Labelled(StructureOf(p, tolerance).swings)
  {
    forall i | 0 <= i < |StructureOf(p, tolerance).swings|
      ensures LabelledAt(StructureOf(p, tolerance).swings, i)
    {
      SwingIsLabelled(p, tolerance, i);
    }
  }

  lemma {:induction false} SwingIsLabelled(p: seq<Pivot>, tolerance: real, i: nat)
    requires i < |StructureOf(p, tolerance).swings|
    ensures LabelledAt(StructureOf(p, tolerance).swings, i)
  {
    hide StructureOf, Legs, TrendOf, TrendAfter;
    TrendMatchesStructure(p, tolerance, 0);
    TrendMatchesStructure(p, tolerance, i);
    StructureFacts.SwingShape(p, tolerance, i);
    if i >= 1 { StructureFacts.SwingShape(p, tolerance, i - 1); }
  }

  // ---------------------------------------------------------------- how the trend moves

  /** One swing never turns an uptrend into a downtrend or back. */
  lemma {:induction false} TrendNeverJumps(s: seq<Swing>, i: nat)
    requires Labelled(s) && i < |s|
    ensures TrendOf(s, i) == Range || TrendOf(s, i + 1) == Range || TrendOf(s, i) == TrendOf(s, i + 1)
  {
    assert LabelledAt(s, i);
    if i >= 1 { assert LabelledAt(s, i - 1); }
  }

  predicate IsChoch(s: seq<Swing>, i: int) {
    0 <= i < |s| && s[i].event == Some(Choch)
  }

  function HintedTrend(s: seq<Swing>, i: nat): Trend
    requires i < |s|
  {
    if s[i].mark == Some(HH) then Uptrend else Downtrend
  }

  /** A CHoCH leaves a trend and lands in range; the very next swing either completes the hinted
      trend or is the opposing extreme that kills the hint, and is never itself a CHoCH. */
  lemma {:induction false} ChochResolvesAtOnce(s: seq<Swing>, i: nat)
    requires Labelled(s) && IsChoch(s, i)
    ensures TrendOf(s, i) != Range && TrendOf(s, i) != HintedTrend(s, i) && TrendOf(s, i + 1) == Range
    ensures i + 1 < |s| ==> s[i + 1].event == None
    ensures i + 1 < |s| ==> if HintedTrend(s, i) == Uptrend
                            then TrendOf(s, i + 2) == (if s[i + 1].mark == Some(LL) then Range else Uptrend)
                            else TrendOf(s, i + 2) == (if s[i + 1].mark == Some(HH) then Range else Downtrend)
  {
    assert LabelledAt(s, i);
    if i >= 1 { assert LabelledAt(s, i - 1); }
    if i + 1 < |s| { assert LabelledAt(s, i + 1); }
  }

  // ---------------------------------------------------------------- the history, swing by swing

  /** The record swing `i` opens, if any: it reads the trend around `i` and the one swing after it. */
  function OpenedAt(s: seq<Swing>, i: nat): seq<Transition>
    requires i < |s|
  {
    if IsChoch(s, i) then
      var to := HintedTrend(s, i);
      if i + 1 < |s| && TrendOf(s, i + 2) == to
      then [Transition(TrendOf(s, i), to, Confirmed, Some(i), Some(i + 1), s[i + 1].time)]
      else [Transition(TrendOf(s, i), to, ChochHint, Some(i), None, s[i].time)]
    else if TrendOf(s, i + 1) != TrendOf(s, i) && TrendOf(s, i + 1) != Range && !IsChoch(s, i - 1)
    then [Transition(TrendOf(s, i), TrendOf(s, i + 1), Confirmed, None, Some(i), s[i].time)]
    else []
  }

  /** The records opened by the first `n` swings, as they read once all of `s` is known. */
  function Opened(s: seq<Swing>, n: nat): seq<Transition>
    requires n <= |s|
  {
    if n == 0 then [] else Opened(s, n - 1) + OpenedAt(s, n - 1)
  }

  function TransitionsOf(s: seq<Swing>): seq<Transition> { Opened(s, |s|) }

  /** What is opened before the last swing no longer depends on what follows. */
  lemma {:induction false} OpenedStable(s: seq<Swing>, t: seq<Swing>, n: nat)
    requires n < |s| && s <= t
    ensures Opened(t, n) == Opened(s, n)
  {
    if n > 0 {
      OpenedStable(s, t, n - 1);
      OpenedAtStable(s, t, n - 1);
      hide OpenedAt;
    }
  }

  lemma {:induction false} OpenedAtStable(s: seq<Swing>, t: seq<Swing>, i: nat)
    requires i + 1 < |s| && s <= t
    ensures OpenedAt(t, i) == OpenedAt(s, i)
  {
    assert TrendOf(t, i) == TrendOf(s, i) && TrendOf(t, i + 1) == TrendOf(s, i + 1);
    assert TrendOf(t, i + 2) == TrendOf(s, i + 2);
  }

  ghost predicate Holds(out: seq<TransitionRecord>, values: seq<Transition>)
    reads out
  {
    && |out| == |values|
    && (forall k :: 0 <= k < |out| ==> out[k].Value() == values[k])
    && (forall j, k :: 0 <= j < k < |out| ==> out[j] != out[k])
  }

  ghost predicate LatestLabels(s: seq<Swing>, n: nat, highLabel: Option<Label>, lowLabel: Option<Label>) {
    && n <= |s|
    && (n == 0 ==> highLabel == None && lowLabel == None)
    && (n > 0 ==> (if s[n - 1].kind == High then highLabel else lowLabel) == s[n - 1].mark)
    && (n > 0 ==> (if s[n - 1].kind == High then lowLabel else highLabel) == if n > 1 then s[n - 2].mark else None)
  }

  /** Swing `n` upgrades the hint opened by swing `n - 1`, or leaves it, or opens its own record. */
  function NextHistory(s: seq<Swing>, n: nat, before: seq<Transition>): seq<Transition>
    requires n < |s| && (IsChoch(s, n - 1) ==> |before| > 0)
  {
    if IsChoch(s, n - 1) then
      if TrendOf(s, n + 1) == HintedTrend(s, n - 1)
      then before[|before| - 1 := before[|before| - 1].(phase := Confirmed, confirmSwing := Some(n), time := s[n].time)]
      else before
    else if IsChoch(s, n)
    then before + [Transition(TrendOf(s, n), HintedTrend(s, n), ChochHint, Some(n), None, s[n].time)]
    else if TrendOf(s, n + 1) != TrendOf(s, n) && TrendOf(s, n + 1) != Range
    then before + [Transition(TrendOf(s, n), TrendOf(s, n + 1), Confirmed, None, Some(n), s[n].time)]
    else before
  }

  /** What swing `n` opens on its own, nothing later being known. */
  lemma {:induction false} OpenedByNewest(s: seq<Swing>, n: nat)
    requires n < |s|
    ensures OpenedAt(s[..n + 1], n)
            == if IsChoch(s, n) then [Transition(TrendOf(s, n), HintedTrend(s, n), ChochHint, Some(n), None, s[n].time)]
               else if TrendOf(s, n + 1) != TrendOf(s, n) && TrendOf(s, n + 1) != Range && !IsChoch(s, n - 1)
               then [Transition(TrendOf(s, n), TrendOf(s, n + 1), Confirmed, None, Some(n), s[n].time)]
               else []
  {
    var now := s[..n + 1];
    assert TrendOf(now, n) == TrendOf(s, n) && TrendOf(now, n + 1) == TrendOf(s, n + 1);
  }

  /** What swing `n` makes of the record opened just before it. */
  lemma {:induction false} OpenedRevised(s: seq<Swing>, n: nat)
    requires 0 < n < |s|
    ensures var before := OpenedAt(s[..n], n - 1);
            if IsChoch(s, n - 1)
            then |before| == 1
                 && OpenedAt(s[..n + 1], n - 1)
                    == if TrendOf(s, n + 1) == HintedTrend(s, n - 1)
                       then [before[0].(phase := Confirmed, confirmSwing := Some(n), time := s[n].time)] else before
            else OpenedAt(s[..n + 1], n - 1) == before
  {
    var past, now := s[..n], s[..n + 1];
    assert TrendOf(now, n) == TrendOf(past, n) && TrendOf(now, n - 1) == TrendOf(past, n - 1)
           && TrendOf(now, n + 1) == TrendOf(s, n + 1);
  }

  lemma {:induction false} HistoryStep(s: seq<Swing>, n: nat)
    requires Labelled(s) && n < |s|
    ensures IsChoch(s, n - 1) ==> |Opened(s[..n], n)| > 0
    ensures Opened(s[..n + 1], n + 1) == NextHistory(s, n, Opened(s[..n], n))
  {
    OpenedByNewest(s, n);
    if IsChoch(s, n) { ChochResolvesAtOnce(s, n); }
    if n > 0 {
      OpenedRevised(s, n);
      if IsChoch(s, n - 1) { ChochResolvesAtOnce(s, n - 1); }
      var past, now := s[..n], s[..n + 1];
      OpenedStable(past, now, n - 1);
      assert Opened(now, n) == Opened(past, n - 1) + OpenedAt(now, n - 1);
      assert Opened(past, n) == Opened(past, n - 1) + OpenedAt(past, n - 1);
    }
  }

  /** A trend forms: the pending hint that named it is upgraded in place, else a new record is added. */
  method RecordFlip(out: seq<TransitionRecord>, ghost values: seq<Transition>, pending: TransitionRecord?,
                    flip: Transition, swing: nat)
    returns (out': seq<TransitionRecord>)
    requires Holds(out, values)
    requires pending != null ==> |out| > 0 && out[|out| - 1] == pending
    modifies pending
    ensures pending != null && pending.toTrend == flip.toTrend ==>
              out' == out && Holds(out', values[|values| - 1 :=
                values[|values| - 1].(phase := Confirmed, confirmSwing := Some(swing), time := flip.time)])
    ensures pending == null || pending.toTrend != flip.toTrend ==>
              |out'| == |out| + 1 && out'[..|out|] == out && fresh(out'[|out|]) && Holds(out', values + [flip])
  {
    if pending != null && pending.toTrend == flip.toTrend {
      pending.Confirm(swing, flip.time);
      out' := out;
    } else {
      var record := new TransitionRecord(flip);
      out' := out + [record];
    }
  }

  /** The running variables after `n` swings, with `values` the history so far. */
  ghost predicate Running(s: seq<Swing>, n: nat, out: seq<TransitionRecord>, values: seq<Transition>,
                          pending: TransitionRecord?, trend: Trend, highLabel: Option<Label>, lowLabel: Option<Label>)
    reads out
  {
    && n <= |s| && Holds(out, values)
    && trend == TrendOf(s, n) && LatestLabels(s, n, highLabel, lowLabel)
    && (pending != null) == IsChoch(s, n - 1)
    && (pending != null ==> |out| > 0 && out[|out| - 1] == pending && pending.toTrend == HintedTrend(s, n - 1))
  }

  method ReadSwing(s: seq<Swing>, i: nat, out: seq<TransitionRecord>, ghost values: seq<Transition>,
                   pending: TransitionRecord?, trend: Trend, highLabel: Option<Label>, lowLabel: Option<Label>)
    returns (out': seq<TransitionRecord>, pending': TransitionRecord?, trend': Trend,
             highLabel': Option<Label>, lowLabel': Option<Label>)
    requires Labelled(s) && i < |s| && Running(s, i, out, values, pending, trend, highLabel, lowLabel)
    modifies pending
    ensures Running(s, i + 1, out', NextHistory(s, i, values), pending', trend', highLabel', lowLabel')
    ensures out <= out' && forall k :: |out| <= k < |out'| ==> fresh(out'[k])
  {
    var swing := s[i];
    assert LabelledAt(s, i);
    if IsChoch(s, i - 1) { ChochResolvesAtOnce(s, i - 1); }
    if IsChoch(s, i) { ChochResolvesAtOnce(s, i); }
    out', pending' := out, pending;
    if pending != null && ((pending.toTrend == Uptrend && swing.mark == Some(LL))
                           || (pending.toTrend == Downtrend && swing.mark == Some(HH))) {
      pending' := null;
    }
    highLabel' := if swing.kind == High then swing.mark else highLabel;
    lowLabel' := if swing.kind == High then lowLabel else swing.mark;
    trend' := TrendFrom(highLabel', lowLabel');
    assert trend' == TrendOf(s, i + 1);
    if swing.event == Some(Choch) {
      pending' := new TransitionRecord(
        Transition(trend, if swing.mark == Some(HH) then Uptrend else Downtrend, ChochHint, Some(i), None, swing.time));
      out' := out + [pending'];
    }
    if trend' != trend && trend' != Range {
      assert swing.event != Some(Choch);
      out' := RecordFlip(out', values, pending', Transition(trend, trend', Confirmed, None, Some(i), swing.time), i);
      pending' := null;
    }
  }

  method DeriveTrendTransitions(s: seq<Swing>) returns (out: seq<TransitionRecord>)
    requires Labelled(s)
    ensures Holds(out, TransitionsOf(s))
    ensures forall k :: 0 <= k < |out| ==> fresh(out[k])
  {
    out := [];
    var highLabel, lowLabel: Option<Label>, trend := None, None, Range;
    var pending: TransitionRecord? := null;
    for i := 0 to |s|
      invariant forall k :: 0 <= k < |out| ==> fresh(out[k])
      invariant Running(s, i, out, Opened(s[..i], i), pending, trend, highLabel, lowLabel)
    {
      HistoryStep(s, i);
      out, pending, trend, highLabel, lowLabel :=
        ReadSwing(s, i, out, Opened(s[..i], i), pending, trend, highLabel, lowLabel);
    }
    assert s[..|s|] == s;
  }

  // ---------------------------------------------------------------- append-only history

  /** Every record of `before` stands in `after`, except that a hint opened by the last swing read may
      since have been confirmed by swing `n`, keeping its direction and its CHoCH. */
  ghost predicate AppendOnly(before: seq<Transition>, after: seq<Transition>, trailingHint: bool, confirmed: bool,
                             n: nat) {
    && |before| <= |after|
    && (forall k :: 0 <= k < |before| - 1 ==> after[k] == before[k])
    && (|before| > 0 && !trailingHint ==> after[|before| - 1] == before[|before| - 1])
    && (trailingHint ==>
          && |before| > 0
          && var b, a := before[|before| - 1], after[|before| - 1];
             && b.phase == ChochHint && b.chochSwing == Some(n - 1)
             && if confirmed then a == b.(phase := Confirmed, confirmSwing := Some(n), time := a.time) else a == b)
  }

  /** Reading more swings changes at most one record: the hint whose CHoCH is the last swing so far,
      and that one exactly when the very next swing is not the opposing extreme. */
  lemma {:induction false} HistoryAppendOnly(s: seq<Swing>, t: seq<Swing>)
    requires Labelled(t) && s <= t
    ensures var n := |s|;
            AppendOnly(TransitionsOf(s), TransitionsOf(t), IsChoch(s, n - 1),
                       IsChoch(s, n - 1) && n < |t| && t[n].mark !in {Some(HH), Some(LL)}, n)
  {
    hide OpenedAt, IsChoch, Labelled;
    var n := |s|;
    if n == 0 {
      NothingYet(s, t);
    } else {
      OpenedPrefix(t, n, |t|);
      OpenedStable(s, t, n - 1);
      LastRecord(s, t);
    }
  }

  lemma {:induction false} NothingYet(s: seq<Swing>, t: seq<Swing>)
    requires |s| == 0
    ensures TransitionsOf(s) == [] && !IsChoch(s, -1)
  {}

  /** What the last swing opened, before and after more swings are known. */
  lemma {:induction false} LastRecord(s: seq<Swing>, t: seq<Swing>)
    requires Labelled(t) && s <= t && |s| > 0
    ensures var n := |s|;
            var before, after := OpenedAt(s, n - 1), OpenedAt(t, n - 1);
            if IsChoch(s, n - 1)
            then && |before| == 1 == |after| && before[0].phase == ChochHint && before[0].chochSwing == Some(n - 1)
                 && if n < |t| && t[n].mark !in {Some(HH), Some(LL)}
                    then after[0] == before[0].(phase := Confirmed, confirmSwing := Some(n), time := after[0].time)
                    else after == before
            else |before| <= 1 && after == before
  {
    var n := |s|;
    assert TrendOf(s, n - 1) == TrendOf(t, n - 1) && TrendOf(s, n) == TrendOf(t, n);
    assert LabelledAt(t, n - 1);
    if IsChoch(t, n - 1) { ChochResolvesAtOnce(t, n - 1); }
    if n < |t| { assert LabelledAt(t, n); }
  }

  lemma {:induction false} OpenedPrefix(t: seq<Swing>, m: nat, n: nat)
    requires m <= n <= |t|
    ensures Opened(t, m) <= Opened(t, n)
  {
    if m < n { OpenedPrefix(t, m, n - 1); }
  }

  lemma {:induction false} CompletedPrefix(p: seq<Pivot>, q: seq<Pivot>, tolerance: real)
    requires |Legs(p)| > 0
    ensures |StructureOf(p, tolerance).swings| == |Legs(p)|
    ensures StructureOf(p, tolerance).swings[..|Legs(p)| - 1] <= StructureOf(p + q, tolerance).swings
  {
    StructureFacts.SwingsFrozen(p, q, tolerance);
    StructureFacts.SwingShape(p, tolerance, 0);
  }

  /** The same over pivots, where the last swing itself may still move: the history of the completed
      swings is append-only however many pivots arrive. */
  lemma {:induction false} CompletedHistoryFrozen(p: seq<Pivot>, q: seq<Pivot>, tolerance: real)
    requires |Legs(p)| > 0
    ensures |StructureOf(p, tolerance).swings| == |Legs(p)|
    ensures var done := StructureOf(p, tolerance).swings[..|Legs(p)| - 1];
            var all, n := StructureOf(p + q, tolerance).swings, |done|;
            AppendOnly(TransitionsOf(done), TransitionsOf(all), IsChoch(done, n - 1),
                       IsChoch(done, n - 1) && n < |all| && all[n].mark !in {Some(HH), Some(LL)}, n)
  {
    CompletedPrefix(p, q, tolerance);
    StructureIsLabelled(p + q, tolerance);
    HistoryAppendOnly(StructureOf(p, tolerance).swings[..|Legs(p)| - 1], StructureOf(p + q, tolerance).swings);
  }
}
