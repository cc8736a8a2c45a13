/** Strong and weak swings (engine/smc/strength.py). */
module Strength {
  import opened Types
  import opened Structure
  import StructureFacts

  datatype SwingStrength = Strong | Weak | Unresolved

  /** `swing` and `judgedBy` are indices into the structure's swing list. */
  datatype StrengthEntry = StrengthEntry(swing: nat, strength: SwingStrength, judgedBy: Option<nat>)

  /** The swing after `i` trades strictly beyond the swing before it. */
  predicate CounterLegBreaks(swings: seq<Swing>, i: nat)
    requires 1 <= i && i + 1 < |swings|
  {
    if swings[i].kind == High then swings[i + 1].price < swings[i - 1].price
    else swings[i + 1].price > swings[i - 1].price
  }

  function StrengthAt(swings: seq<Swing>, i: nat): StrengthEntry
    requires i < |swings|
  {
    if i == 0 || i + 1 == |swings| then StrengthEntry(i, Unresolved, None)
    else if CounterLegBreaks(swings, i) then StrengthEntry(i, Strong, Some(i + 1))
    else if i + 2 < |swings| then StrengthEntry(i, Weak, Some(i + 1))
    else StrengthEntry(i, Unresolved, None)
  }

  method DeriveSwingStrength(swings: seq<Swing>) returns (entries: seq<StrengthEntry>)
    ensures |entries| == |swings|
    ensures forall i :: 0 <= i < |swings| ==> entries[i] == StrengthAt(swings, i)
  {
    entries := [];
    for index := 0 to |swings|
      invariant |entries| == index
      invariant forall i :: 0 <= i < index ==> entries[i] == StrengthAt(swings, i)
    {
      if index == 0 || index + 1 >= |swings| {
        entries := entries + [StrengthEntry(index, Unresolved, None)];
        continue;
      }
      var prior, swing, counterLeg := swings[index - 1], swings[index], swings[index + 1];
      var broke := if swing.kind == High then counterLeg.price < prior.price else counterLeg.price > prior.price;
      if broke {
        entries := entries + [StrengthEntry(index, Strong, Some(index + 1))];
        continue;
      }
      var legCompleted := index + 2 < |swings|;
      entries := entries + [if legCompleted then StrengthEntry(index, Weak, Some(index + 1))
                            else StrengthEntry(index, Unresolved, None)];
    }
  }

  /** A strong or weak verdict is final: appended pivots never retract it, even while its
      counter-leg is the forming leg and still extends. */
  lemma {:induction false} VerdictNeverRetracted(p: seq<Pivot>, q: seq<Pivot>, tolerance: real, i: nat)
    requires i < |StructureOf(p, tolerance).swings|
    requires StrengthAt(StructureOf(p, tolerance).swings, i).strength != Unresolved
    ensures i < |StructureOf(p + q, tolerance).swings|
    ensures StrengthAt(StructureOf(p + q, tolerance).swings, i) == StrengthAt(StructureOf(p, tolerance).swings, i)
  {
    StructureFacts.SwingsFrozen(p, q, tolerance);
    var before, after := StructureOf(p, tolerance).swings, StructureOf(p + q, tolerance).swings;
    StructureFacts.SwingShape(p, tolerance, i);
    StructureFacts.SwingShape(p, tolerance, i + 1);
    VerdictKept(before, after, i);
  }

  lemma {:induction false} VerdictKept(before: seq<Swing>, after: seq<Swing>, i: nat)
    requires StructureFacts.FrozenButLast(before, after) && i < |before|
    requires StrengthAt(before, i).strength != Unresolved && before[i + 1].kind != before[i].kind
    ensures StrengthAt(after, i) == StrengthAt(before, i)
  {
    assert after[i] == before[i] && after[i - 1] == before[i - 1];
  }

  /** The counter-leg breaks exactly when it is labelled a break of its own kind. */
  lemma {:induction false} BreakIsLabel(p: seq<Pivot>, tolerance: real, i: nat)
    requires 1 <= i && i + 1 < |StructureOf(p, tolerance).swings|
    ensures var swings := StructureOf(p, tolerance).swings;
            && (CounterLegBreaks(swings, i) <==> swings[i + 1].mark in {Some(HH), Some(LL)})
            && (!CounterLegBreaks(swings, i) <==> swings[i + 1].mark in {Some(LH), Some(HL)})
  {
    hide StructureOf, SwingsOf, LabelAt, EventAt;
    SwingReadsLeg(p, tolerance, i - 1);
    SwingReadsLeg(p, tolerance, i);
    SwingReadsLeg(p, tolerance, i + 1);
    LegBreakIsLabel(Legs(p), i);
  }

  lemma {:induction false} SwingReadsLeg(p: seq<Pivot>, tolerance: real, i: nat)
    requires i < |StructureOf(p, tolerance).swings|
    ensures |StructureOf(p, tolerance).swings| == |Legs(p)|
    ensures var swing, leg := StructureOf(p, tolerance).swings[i], Legs(p)[i];
            && swing.kind == leg.kind && swing.price == leg.price && swing.mark == LabelAt(Legs(p), i)
            && (i > 0 ==> leg.kind != Legs(p)[i - 1].kind)
  {
    hide LabelAt, EventAt, Runs, Levels;
    assert |StructureOf(p, tolerance).swings| == |Legs(p)|;
    StructureFacts.SwingShape(p, tolerance, i);
  }

  lemma {:induction false} LegBreakIsLabel(legs: seq<Pivot>, i: nat)
    requires 1 <= i && i + 1 < |legs| && legs[i].kind != legs[i - 1].kind && legs[i + 1].kind != legs[i].kind
    ensures Outside(legs[i + 1].kind, legs[i + 1].price, legs[i - 1].price)
            <==> LabelAt(legs, i + 1) in {Some(HH), Some(LL)}
    ensures LabelAt(legs, i + 1) in {Some(HH), Some(LL), Some(LH), Some(HL)}
  {}

  /** The verdict is the next swing's label: strong exactly when that label is a break, weak exactly
      when it is an internal label and a further swing has frozen it. */
  lemma {:induction false} StrengthIsNextLabel(p: seq<Pivot>, tolerance: real, i: nat)
    requires i < |StructureOf(p, tolerance).swings|
    ensures var swings := StructureOf(p, tolerance).swings;
            var judged := 1 <= i && i + 1 < |swings|;
            var strength := StrengthAt(swings, i).strength;
            && (strength == Strong <==> judged && swings[i + 1].mark in {Some(HH), Some(LL)})
            && (strength == Weak <==> judged && i + 2 < |swings| && swings[i + 1].mark in {Some(LH), Some(HL)})
  {
    if 1 <= i && i + 1 < |StructureOf(p, tolerance).swings| { BreakIsLabel(p, tolerance, i); }
  }

  /** A verdict names its own swing, and the one after it as its proof; without a verdict there is none. */
  lemma {:induction false} VerdictNamesNext(swings: seq<Swing>, i: nat)
    requires i < |swings|
    ensures var entry := StrengthAt(swings, i);
            entry == StrengthEntry(i, entry.strength, if entry.strength == Unresolved then None else Some(i + 1))
  {}

  /** A break of structure proves the swing it launched from strong. */
  lemma {:induction false} BreakProvesStrong(p: seq<Pivot>, tolerance: real, i: nat)
    requires i + 1 < |StructureOf(p, tolerance).swings|
    requires StructureOf(p, tolerance).swings[i + 1].event.Some?
    ensures StrengthAt(StructureOf(p, tolerance).swings, i).strength == Strong
  {
    hide StructureOf, StrengthAt, LabelAt, TrendAfter;
    SwingReadsLeg(p, tolerance, i + 1);
    StructureFacts.SwingShape(p, tolerance, i + 1);
    EventIsBreak(Legs(p), i + 1);
    StrengthIsNextLabel(p, tolerance, i);
  }

  lemma {:induction false} EventIsBreak(legs: seq<Pivot>, i: nat)
    requires i < |legs| && EventAt(legs, i).Some?
    ensures i >= 2 && LabelAt(legs, i) in {Some(HH), Some(LL)}
  {}
}
