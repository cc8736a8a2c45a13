/** The point of interest and the limit plan (engine/smc/poi.py), the record adopted from it and the R
    accounting that follows (engine/smc/anticipatory.py). */
module Poi {
  import opened Types
  import opened Structure
  import opened Horizons
  import opened Tracker
  import opened Anticipatory
  import opened Objectives
  import Liquidity
  import Sorting
  import Zones

  // ---------------------------------------------------------------- selecting the zone

  datatype Position = Premium | Discount | Equilibrium

  /** Where a price sits against the midpoint of the dealing range. */
  function ClassifyPrice(equilibrium: real, price: real): Position {
    if price > equilibrium then Premium else if price < equilibrium then Discount else Equilibrium
  }

  /** The zone edge a resting limit fills at first. */
  function ProximalEdge(z: Zones.BaseZone, direction: Side): real {
    if direction == Long then z.priceHigh else z.priceLow
  }

  function DistalEdge(z: Zones.BaseZone, direction: Side): real {
    if direction == Long then z.priceLow else z.priceHigh
  }

  predicate Offers(z: Zones.BaseZone, direction: Side, fromPrice: real) {
    && z.kind == (if direction == Long then Zones.Demand else Zones.Supply)
    && !Beyond(direction, ProximalEdge(z, direction), fromPrice)
  }

  function SideCost(z: Zones.BaseZone, direction: Side, range: Option<real>): int {
    if range.Some? && ClassifyPrice(range.value, ProximalEdge(z, direction))
      == (if direction == Long then Discount else Premium)
    then 0 else 1
  }

  function FreshCost(z: Zones.BaseZone): int { if z.freshness == Zones.Fresh then 0 else 1 }

  /** Wanted side of the range first, then fresh, then nearest, then earliest. */
  predicate Preferred(direction: Side, range: Option<real>, a: Zones.BaseZone, b: Zones.BaseZone) {
    var sa, sb := SideCost(a, direction, range), SideCost(b, direction, range);
    var fa, fb := FreshCost(a), FreshCost(b);
    var ea, eb := Rank(direction, ProximalEdge(a, direction)), Rank(direction, ProximalEdge(b, direction));
    sa < sb || (sa == sb && (fa < fb || (fa == fb && (ea > eb || (ea == eb && a.startTime <= b.startTime)))))
  }

  function Offered(zones: seq<Zones.BaseZone>, direction: Side, fromPrice: real): seq<Zones.BaseZone> {
    if |zones| == 0 then []
    else Offered(zones[..|zones| - 1], direction, fromPrice)
         + if Offers(zones[|zones| - 1], direction, fromPrice) then [zones[|zones| - 1]] else []
  }

  function SelectPoi(zones: seq<Zones.BaseZone>, direction: Side, fromPrice: real,
                     range: Option<real>): Option<Zones.BaseZone> {
    var ranked := Sorting.Sort(Offered(zones, direction, fromPrice),
                               (a: Zones.BaseZone, b: Zones.BaseZone) => Preferred(direction, range, a, b));
    if |ranked| > 0 then Some(ranked[0]) else None
  }

  lemma {:induction false} OfferedMember(zones: seq<Zones.BaseZone>, direction: Side, fromPrice: real,
                                         z: Zones.BaseZone)
    ensures z in Offered(zones, direction, fromPrice) <==> z in zones && Offers(z, direction, fromPrice)
  {
    if |zones| > 0 {
      OfferedMember(zones[..|zones| - 1], direction, fromPrice, z);
      assert zones == zones[..|zones| - 1] + [zones[|zones| - 1]];
    }
  }

  /** The selected zone is offered and no offered zone is preferred to it; none is selected exactly
      when none is offered. */
  lemma {:induction false} SelectPoiIsBest(zones: seq<Zones.BaseZone>, direction: Side, fromPrice: real,
                                           range: Option<real>, z: Zones.BaseZone)
    requires z in zones && Offers(z, direction, fromPrice)
    ensures var best := SelectPoi(zones, direction, fromPrice, range);
            && best.Some? && best.value in zones && Offers(best.value, direction, fromPrice)
            && Preferred(direction, range, best.value, z)
  {
    var offered := Offered(zones, direction, fromPrice);
    var le := (a: Zones.BaseZone, b: Zones.BaseZone) => Preferred(direction, range, a, b);
    OfferedMember(zones, direction, fromPrice, z);
    Sorting.SortKeeps(offered, le);
    assert Sorting.TotalPreorder(le);
    Sorting.SortSorted(offered, le);
    var ranked := Sorting.Sort(offered, le);
    var k :| 0 <= k < |ranked| && ranked[k] == z;
    assert ranked[0] in ranked;
    OfferedMember(zones, direction, fromPrice, ranked[0]);
    assert le(z, z);
  }

  /** A pullback reaches the zone: demand at or below the price for a long, supply at or above it for a short. */
  ghost predicate InPullback(z: Zones.BaseZone, direction: Side, fromPrice: real) {
    match direction
    case Long => z.kind == Zones.Demand && z.priceHigh <= fromPrice
    case Short => z.kind == Zones.Supply && fromPrice <= z.priceLow
  }

  /** The edge met first lies on the cheap half of the range for a long, on the dear half for a short. */
  ghost predicate OnGoodHalf(z: Zones.BaseZone, direction: Side, range: Option<real>) {
    range.Some? && match direction case Long => z.priceHigh < range.value case Short => range.value < z.priceLow
  }

  /** `a`'s first edge is met no later than `b`'s. */
  ghost predicate NoFarther(a: Zones.BaseZone, b: Zones.BaseZone, direction: Side) {
    match direction case Long => b.priceHigh <= a.priceHigh case Short => a.priceLow <= b.priceLow
  }

  /** The selected zone in prices, against any other in the pullback: on the good half if one is, then fresh if one
      is, then met first, then the older. */
  lemma {:induction false} SelectionOnZones(zones: seq<Zones.BaseZone>, direction: Side, fromPrice: real,
                                            range: Option<real>, other: Zones.BaseZone)
    requires other in zones && InPullback(other, direction, fromPrice)
    ensures SelectPoi(zones, direction, fromPrice, range).Some?
    ensures var z := SelectPoi(zones, direction, fromPrice, range).value;
            && z in zones && InPullback(z, direction, fromPrice)
            && (OnGoodHalf(other, direction, range) ==> OnGoodHalf(z, direction, range))
            && ((OnGoodHalf(z, direction, range) <==> OnGoodHalf(other, direction, range)) ==>
                  && (other.freshness == Zones.Fresh ==> z.freshness == Zones.Fresh)
                  && ((z.freshness == Zones.Fresh <==> other.freshness == Zones.Fresh) ==>
                        && NoFarther(z, other, direction)
                        && (NoFarther(other, z, direction) ==> z.startTime <= other.startTime)))
  {
    assert Offers(other, direction, fromPrice);
    SelectPoiIsBest(zones, direction, fromPrice, range, other);
    hide SelectPoi;
    PreferredOnZones(SelectPoi(zones, direction, fromPrice, range).value, other, direction, range);
    hide Preferred, OnGoodHalf, NoFarther;
  }

  lemma {:induction false} PreferredOnZones(z: Zones.BaseZone, other: Zones.BaseZone, direction: Side,
                                            range: Option<real>)
    requires Preferred(direction, range, z, other)
    ensures OnGoodHalf(other, direction, range) ==> OnGoodHalf(z, direction, range)
    ensures (OnGoodHalf(z, direction, range) <==> OnGoodHalf(other, direction, range)) ==>
              && (other.freshness == Zones.Fresh ==> z.freshness == Zones.Fresh)
              && ((z.freshness == Zones.Fresh <==> other.freshness == Zones.Fresh) ==>
                    && NoFarther(z, other, direction)
                    && (NoFarther(other, z, direction) ==> z.startTime <= other.startTime))
  {}

  /** Without a zone in the pullback there is none to select. */
  lemma {:induction false} NoZoneNoPoi(zones: seq<Zones.BaseZone>, direction: Side, fromPrice: real,
                                       range: Option<real>)
    requires forall z :: z in zones ==> !InPullback(z, direction, fromPrice)
    ensures SelectPoi(zones, direction, fromPrice, range) == None
  {
    OfferedSelected(zones, direction, fromPrice, range);
    hide SelectPoi;
    assert forall z :: InPullback(z, direction, fromPrice) <==> Offers(z, direction, fromPrice);
  }

  // ---------------------------------------------------------------- the plan

  datatype AnticipatoryPlan = AnticipatoryPlan(
    direction: Side, zone: Zones.BaseZone, entry: real, stop: real, objective: Candidate,
    riskPerUnit: real, rewardPerUnit: real, rewardRisk: real)

  function BuildPlan(zones: seq<Zones.BaseZone>, direction: Side, fromPrice: real, range: Option<real>,
                     objectives: seq<Candidate>): Option<AnticipatoryPlan>
  {
    if |objectives| == 0 then None
    else
      match SelectPoi(zones, direction, fromPrice, range)
      case None => None
      case Some(zone) =>
        var entry, stop := ProximalEdge(zone, direction), DistalEdge(zone, direction);
        var risk := if direction == Long then entry - stop else stop - entry;
        var reward := if direction == Long then objectives[0].price - entry else entry - objectives[0].price;
        if risk <= 0.0 || reward <= 0.0 then None
        else Some(AnticipatoryPlan(direction, zone, entry, stop, objectives[0], risk, reward, reward / risk))
  }

  /** Entry strictly between stop and objective, with the distances that go with it. */
  ghost predicate SoundGeometry(plan: AnticipatoryPlan) {
    && Beyond(plan.direction, plan.entry, plan.stop) && Beyond(plan.direction, plan.objective.price, plan.entry)
    && plan.riskPerUnit == Abs(plan.entry - plan.stop) && plan.rewardPerUnit == Abs(plan.objective.price - plan.entry)
    && plan.rewardRisk * plan.riskPerUnit == plan.rewardPerUnit
  }

  lemma {:induction false} OfferedSelected(zones: seq<Zones.BaseZone>, direction: Side, fromPrice: real,
                                           range: Option<real>)
    ensures SelectPoi(zones, direction, fromPrice, range).Some? ==>
              var z := SelectPoi(zones, direction, fromPrice, range).value;
              z in zones && Offers(z, direction, fromPrice)
  {
    var offered := Offered(zones, direction, fromPrice);
    var le := (a: Zones.BaseZone, b: Zones.BaseZone) => Preferred(direction, range, a, b);
    Sorting.SortKeeps(offered, le);
    var ranked := Sorting.Sort(offered, le);
    if |ranked| > 0 {
      assert ranked[0] in ranked;
      OfferedMember(zones, direction, fromPrice, ranked[0]);
    }
  }

  /** Whatever objectives it is given, a built plan has sound geometry; one is built exactly when the selected
      zone has positive width and the first objective lies strictly past its proximal edge. */
  lemma {:induction false} PlanIsSound(zones: seq<Zones.BaseZone>, direction: Side, fromPrice: real,
                                       range: Option<real>, objectives: seq<Candidate>)
    ensures var built, zone := BuildPlan(zones, direction, fromPrice, range, objectives),
              SelectPoi(zones, direction, fromPrice, range);
            && (built.Some? <==> |objectives| > 0 && zone.Some?
                                 && Beyond(direction, ProximalEdge(zone.value, direction),
                                           DistalEdge(zone.value, direction))
                                 && Beyond(direction, objectives[0].price, ProximalEdge(zone.value, direction)))
            && (built.Some? ==>
                  && SoundGeometry(built.value) && built.value.direction == direction
                  && !Beyond(direction, built.value.entry, fromPrice) && built.value.objective == objectives[0])
  {
    hide SelectPoi, Offers;
    OfferedFrom(zones, direction, fromPrice, range);
    var built := BuildPlan(zones, direction, fromPrice, range, objectives);
    if built.Some? { Undivide(built.value.rewardPerUnit, built.value.riskPerUnit); }
  }

  /** When a plan is built, in prices: a selected zone of positive width and a first objective past the edge met
      first. */
  lemma {:induction false} PlannedIff(zones: seq<Zones.BaseZone>, direction: Side, fromPrice: real,
                                      range: Option<real>, objectives: seq<Candidate>)
    ensures BuildPlan(zones, direction, fromPrice, range, objectives).Some?
            <==> |objectives| > 0 && match SelectPoi(zones, direction, fromPrice, range)
                 case None => false
                 case Some(z) => && z.priceLow < z.priceHigh
                                 && match direction
                                    case Long => z.priceHigh < objectives[0].price
                                    case Short => objectives[0].price < z.priceLow
  {
    hide SelectPoi;
  }

  /** The plan in prices: the limit at the zone's first edge, the stop at its far one, the first objective as target. */
  lemma {:induction false} PlanOnZone(zones: seq<Zones.BaseZone>, direction: Side, fromPrice: real,
                                      range: Option<real>, objectives: seq<Candidate>)
    requires BuildPlan(zones, direction, fromPrice, range, objectives).Some?
    ensures var plan := BuildPlan(zones, direction, fromPrice, range, objectives).value;
            && SelectPoi(zones, direction, fromPrice, range) == Some(plan.zone)
            && (match direction
                case Long => plan.entry == plan.zone.priceHigh && plan.stop == plan.zone.priceLow
                case Short => plan.entry == plan.zone.priceLow && plan.stop == plan.zone.priceHigh)
            && plan.objective == objectives[0] && plan.direction == direction
  {
    hide SelectPoi;
  }

  lemma {:induction false} OfferedFrom(zones: seq<Zones.BaseZone>, direction: Side, fromPrice: real,
                                       range: Option<real>)
    ensures var zone := SelectPoi(zones, direction, fromPrice, range);
            zone.Some? ==> !Beyond(direction, ProximalEdge(zone.value, direction), fromPrice)
  {
    hide SelectPoi;
    OfferedSelected(zones, direction, fromPrice, range);
  }

  lemma {:induction false} Undivide(a: real, b: real)
    requires b > 0.0
    ensures a / b * b == a
  {}

  /** On objectives resolved at the same price a plan straddles that price: the limit rests at or short of
      it, the objective lies strictly past it. So there the reward is never the reason a plan is refused. */
  lemma {:induction false} PlanGeometry(swings: seq<Swing>, pools: seq<Liquidity.Pool>, zones: seq<Zones.BaseZone>,
                                        direction: Side, fromPrice: real, range: Option<real>)
    ensures var objectives := RankedDraws(swings, pools, direction, fromPrice);
            var built, zone := BuildPlan(zones, direction, fromPrice, range, objectives),
              SelectPoi(zones, direction, fromPrice, range);
            && (built.Some? <==> |objectives| > 0 && zone.Some?
                                 && Beyond(direction, ProximalEdge(zone.value, direction),
                                           DistalEdge(zone.value, direction)))
            && (built.Some? ==> Beyond(direction, built.value.objective.price, fromPrice)
                                && !Beyond(direction, built.value.entry, fromPrice))
  {
    hide RankedDraws, SelectPoi, BuildPlan;
    var objectives := RankedDraws(swings, pools, direction, fromPrice);
    ObjectivesMoveAway(swings, pools, direction, fromPrice);
    OfferedSelected(zones, direction, fromPrice, range);
    PlanIsSound(zones, direction, fromPrice, range, objectives);
  }

  const PULLBACK_ZONE := Zones.BaseZone(Zones.Demand, 96.0, 98.0, 0, 1, Zones.Fresh)

  /** A long zone at 96 to 98 is out of reach from 95; from 100 it carries a plan exactly for a draw above 98. */
  lemma {:induction false} PullbackPlan(objectives: seq<Candidate>)
    requires |objectives| > 0
    ensures BuildPlan([PULLBACK_ZONE], Long, 95.0, None, objectives) == None
    ensures var plan := BuildPlan([PULLBACK_ZONE], Long, 100.0, None, objectives);
            && (plan.Some? <==> objectives[0].price > 98.0)
            && (plan.Some? ==> plan.value.entry == 98.0)
  {
    OfferedSelected([PULLBACK_ZONE], Long, 95.0, None);
    OfferedMember([PULLBACK_ZONE], Long, 100.0, PULLBACK_ZONE);
    SelectPoiIsBest([PULLBACK_ZONE], Long, 100.0, None, PULLBACK_ZONE);
    assert SelectPoi([PULLBACK_ZONE], Long, 100.0, None) == Some(PULLBACK_ZONE);
    hide SelectPoi;
  }

  // ---------------------------------------------------------------- R accounting

  /** The record adopted from a plan; the plan is frozen in it. */
  function Adopt(plan: AnticipatoryPlan, intent: TradingIntent, timeframe: Timeframe, nowMs: int): Signal {
    Signal(intent, timeframe, plan.direction, plan.entry, plan.stop, plan.objective.price, Round2(plan.rewardRisk),
           Some(nowMs), Pending, None, None, None, None)
  }

  /** What a record's R may be in each status: -1 at the stop, the frozen reward/risk at the objective,
      the close's R on expiry, and none before a position closed. */
  ghost predicate Accounted(s: Signal) {
    match s.status
    case Pending => s.resultR == None && s.filledAt == None
    case Filled => s.resultR == None && s.filledAt.Some?
    case NeverFilled => s.resultR == None && s.closePrice == None && s.filledAt == None
    case Stopped => s.resultR == Some(-1.0) && s.closePrice == Some(s.stop) && s.filledAt.Some?
    case ObjectiveHit => s.resultR == Some(s.rewardRisk) && s.closePrice == Some(s.objective) && s.filledAt.Some?
    case Expired =>
      && s.closePrice.Some? && s.resultR == Some(ResultR(s.direction, s.entry, s.stop, s.closePrice.value))
      && s.filledAt.Some?
  }

  /** The plan fields of a record adopted from a sound plan. */
  ghost predicate PlannedBy(s: Signal, plan: AnticipatoryPlan) {
    && SoundGeometry(plan) && s.direction == plan.direction && s.entry == plan.entry && s.stop == plan.stop
    && s.objective == plan.objective.price && s.rewardRisk == Round2(plan.rewardRisk)
  }

  lemma {:induction false} LevelR(s: Signal, plan: AnticipatoryPlan)
    requires PlannedBy(s, plan)
    ensures ResultR(s.direction, s.entry, s.stop, s.stop) == -1.0
    ensures ResultR(s.direction, s.entry, s.stop, s.objective) == s.rewardRisk
  {
    var risk := Abs(s.entry - s.stop);
    DivideBack(-risk, -1.0, risk);
    DivideBack(plan.rewardPerUnit, plan.rewardRisk, risk);
    assert (-100.0 + 0.5).Floor == -100;
    assert Round2(-1.0) == -1.0;
    hide Round2;
  }

  lemma {:induction false} DivideBack(gain: real, r: real, risk: real)
    requires risk > 0.0 && gain == r * risk
    ensures gain / risk == r
  {
    var q := gain / risk;
    assert q * risk == gain;
    assert (q - r) * risk == 0.0;
  }

  lemma {:induction false} WalkAccounted(s: Signal, plan: AnticipatoryPlan, bars: seq<Candle>, onFillBar: bool,
                                         budget: nat)
    requires PlannedBy(s, plan) && Walk(s, bars, onFillBar, budget).Some?
    ensures var p := Walk(s, bars, onFillBar, budget).value;
            && p.closedAt.Some? && p.closePrice.Some? && p.filledAt == None
            && match p.status
               case Stopped => p.resultR == Some(-1.0) && p.closePrice == Some(s.stop)
               case ObjectiveHit => p.resultR == Some(s.rewardRisk) && p.closePrice == Some(s.objective)
               case Expired => p.resultR == Some(ResultR(s.direction, s.entry, s.stop, p.closePrice.value))
               case _ => false
  {
    if !Decides(s, bars[0], onFillBar) && budget > 1 {
      WalkAccounted(s, plan, bars[1..], false, budget - 1);
    } else {
      LevelR(s, plan);
    }
  }

  ghost predicate WellFormed(bars: seq<Candle>) {
    forall c :: c in bars ==> c.low <= c.close <= c.high
  }

  /** On well-formed bars even an expiry closes between the stop and the objective, so every settled R
      lies between -1 and the frozen reward/risk. */
  lemma {:induction false} SettledRInRange(s: Signal, plan: AnticipatoryPlan, bars: seq<Candle>, onFillBar: bool,
                                           budget: nat)
    requires PlannedBy(s, plan) && WellFormed(bars) && (onFillBar ==> budget > 1)
             && Walk(s, bars, onFillBar, budget).Some?
    ensures var r := Walk(s, bars, onFillBar, budget).value.resultR;
            r.Some? && -1.0 <= r.value <= s.rewardRisk
  {
    LevelR(s, plan);
    assert bars[0] in bars;
    if !Decides(s, bars[0], onFillBar) && budget > 1 {
      SettledRInRange(s, plan, bars[1..], false, budget - 1);
    } else if !Decides(s, bars[0], onFillBar) {
      ResultRMonotone(s, s.stop, bars[0].close);
      ResultRMonotone(s, bars[0].close, s.objective);
    } else {
      ResultRMonotone(s, s.stop, s.objective);
    }
  }

  lemma {:induction false} ResultRMonotone(s: Signal, nearer: real, further: real)
    requires s.entry != s.stop && !Beyond(s.direction, nearer, further)
    ensures ResultR(s.direction, s.entry, s.stop, nearer) <= ResultR(s.direction, s.entry, s.stop, further)
  {
    var risk := Abs(s.entry - s.stop);
    var a := if s.direction == Long then nearer - s.entry else s.entry - nearer;
    var b := if s.direction == Long then further - s.entry else s.entry - further;
    DivMonotone(a, b, risk);
    RoundMonotone(a / risk, b / risk, 100.0);
  }

  /** Settlement keeps the books on any batch whatever, in or out of order. */
  lemma {:induction false} PassAccounted(s: Signal, plan: AnticipatoryPlan, bars: seq<Candle>)
    requires PlannedBy(s, plan) && Accounted(s) && (s.status in {Pending, Filled} ==> s.closePrice == None)
    ensures var t := Pass(s, bars);
            PlannedBy(t, plan) && Accounted(t) && (t.status in {Pending, Filled} ==> t.closePrice == None)
  {
    if s.openedAtMs.Some? && s.status == Pending {
      var waiting := Waiting(s, bars, s.openedAtMs.value);
      var fill := FillIndex(s, waiting);
      if fill < |waiting| {
        var held := Since(bars, waiting[fill].time * 1000);
        if Walk(s, held, true, MaxHoldBars(s.intent)).Some? {
          WalkAccounted(s, plan, held, true, MaxHoldBars(s.intent));
        }
      }
    } else if s.openedAtMs.Some? && s.status == Filled && Settle(s, bars).Some? {
      var held := Since(bars, s.filledAt.value * 1000);
      WalkAccounted(s, plan, held, held[0].time == s.filledAt.value, MaxHoldBars(s.intent));
    }
  }

  /** Over every run: a record adopted from a sound plan settles its stop at exactly -1R and its
      objective at exactly the reward/risk frozen at adoption, and carries no R until a position closes. */
  lemma {:induction false} RunAccounted(plan: AnticipatoryPlan, intent: TradingIntent, timeframe: Timeframe, nowMs: int,
                                        bars: seq<Candle>, windows: seq<Window>)
    requires SoundGeometry(plan)
    requires forall k :: 0 <= k < |windows| ==> windows[k].from <= windows[k].to <= |bars|
    ensures var t := RunWindows(Adopt(plan, intent, timeframe, nowMs), bars, windows);
            PlannedBy(t, plan) && Accounted(t) && (t.status in {Pending, Filled} ==> t.closePrice == None)
  {
    if |windows| > 0 {
      RunAccounted(plan, intent, timeframe, nowMs, bars, windows[..|windows| - 1]);
      var w := windows[|windows| - 1];
      PassAccounted(RunWindows(Adopt(plan, intent, timeframe, nowMs), bars, windows[..|windows| - 1]), plan,
                    bars[w.from..w.to]);
    }
  }

  ghost predicate RInRange(s: Signal) { s.resultR.Some? ==> -1.0 <= s.resultR.value <= s.rewardRisk }

  lemma {:induction false} SinceWellFormed(bars: seq<Candle>, ms: int)
    requires WellFormed(bars)
    ensures WellFormed(Since(bars, ms))
  {
    forall c | c in Since(bars, ms) ensures c.low <= c.close <= c.high { SinceMember(bars, ms, c); }
  }

  lemma {:induction false} PassRInRange(s: Signal, plan: AnticipatoryPlan, bars: seq<Candle>)
    requires PlannedBy(s, plan) && RInRange(s) && WellFormed(bars)
    ensures RInRange(Pass(s, bars))
  {
    hide WellFormed, PlannedBy, Walk;
    if s.openedAtMs.Some? && s.status == Pending {
      var waiting := Waiting(s, bars, s.openedAtMs.value);
      var fill := FillIndex(s, waiting);
      if fill < |waiting| {
        SinceWellFormed(bars, waiting[fill].time * 1000);
        var held := Since(bars, waiting[fill].time * 1000);
        if Walk(s, held, true, MaxHoldBars(s.intent)).Some? {
          SettledRInRange(s, plan, held, true, MaxHoldBars(s.intent));
        }
      }
    } else if s.openedAtMs.Some? && s.status == Filled && Settle(s, bars).Some? {
      SinceWellFormed(bars, s.filledAt.value * 1000);
      var held := Since(bars, s.filledAt.value * 1000);
      SettledRInRange(s, plan, held, held[0].time == s.filledAt.value, MaxHoldBars(s.intent));
    }
  }

  /** So whatever batches of well-formed bars a record is settled by, its R lies between -1 and the reward/risk
      frozen at adoption. */
  lemma {:induction false} RunRInRange(plan: AnticipatoryPlan, intent: TradingIntent, timeframe: Timeframe, nowMs: int,
                                       bars: seq<Candle>, windows: seq<Window>)
    requires SoundGeometry(plan) && WellFormed(bars)
    requires forall k :: 0 <= k < |windows| ==> windows[k].from <= windows[k].to <= |bars|
    ensures RInRange(RunWindows(Adopt(plan, intent, timeframe, nowMs), bars, windows))
  {
    hide SoundGeometry, Pass, PlannedBy, Accounted;
    if |windows| > 0 {
      var init, w := windows[..|windows| - 1], windows[|windows| - 1];
      RunRInRange(plan, intent, timeframe, nowMs, bars, init);
      RunAccounted(plan, intent, timeframe, nowMs, bars, init);
      assert forall c :: c in bars[w.from..w.to] ==> c in bars;
      PassRInRange(RunWindows(Adopt(plan, intent, timeframe, nowMs), bars, init), plan, bars[w.from..w.to]);
    }
  }

  // ---------------------------------------------------------------- the record summary

  function CountStatus(signals: seq<Signal>, status: Status): nat {
    if |signals| == 0 then 0
    else CountStatus(signals[..|signals| - 1], status) + if signals[|signals| - 1].status == status then 1 else 0
  }

  predicate IsSettled(s: Signal) { s.status in {ObjectiveHit, Stopped, Expired} }

  function ROf(s: Signal): real { if s.resultR.Some? then s.resultR.value else 0.0 }

  function CountWins(signals: seq<Signal>): nat {
    if |signals| == 0 then 0
    else CountWins(signals[..|signals| - 1])
         + if IsSettled(signals[|signals| - 1]) && ROf(signals[|signals| - 1]) > 0.0 then 1 else 0
  }

  function TotalR(signals: seq<Signal>): real {
    if |signals| == 0 then 0.0
    else TotalR(signals[..|signals| - 1]) + if IsSettled(signals[|signals| - 1]) then ROf(signals[|signals| - 1])
      else 0.0
  }

  datatype Summary = Summary(total: nat, pending: nat, open: nat, neverFilled: nat, filled: nat, fillRate: real,
                             settled: nat, wins: nat, losses: nat, winRate: real, averageR: real, lowSample: bool)

  const MIN_ANTICIPATORY_RECORD_TRADES := 15

  function Summarize(signals: seq<Signal>): Summary {
    var open, never := CountStatus(signals, Filled), CountStatus(signals, NeverFilled);
    var settled := CountStatus(signals, ObjectiveHit) + CountStatus(signals, Stopped) + CountStatus(signals, Expired);
    var filled := open + settled;
    Summary(|signals|, CountStatus(signals, Pending), open, never, filled,
            if filled + never > 0 then RoundHalfUp(filled as real / (filled + never) as real * 100.0, 10.0) else 0.0,
            settled, CountWins(signals), CountStatus(signals, Stopped),
            if settled > 0 then RoundHalfUp(CountWins(signals) as real / settled as real * 100.0, 10.0) else 0.0,
            Round2(if settled > 0 then TotalR(signals) / settled as real else 0.0),
            0 < settled < MIN_ANTICIPATORY_RECORD_TRADES)
  }

  /** The totals partition, and on accounted records wins and stopped positions never overlap. */
  lemma {:induction false} SummaryCloses(signals: seq<Signal>)
    requires forall s :: s in signals ==> Accounted(s)
    ensures var m := Summarize(signals);
            && m.total == m.pending + m.neverFilled + m.open + m.settled
               && m.filled + m.neverFilled + m.pending == m.total
            && m.wins + m.losses <= m.settled
  {
    if |signals| > 0 {
      var init, last := signals[..|signals| - 1], signals[|signals| - 1];
      assert forall s :: s in init ==> s in signals;
      assert last in signals;
      SummaryCloses(init);
    }
  }

  /** The records of one status, by their places. */
  ghost function InStatus(signals: seq<Signal>, status: Status): set<int> {
    set i | 0 <= i < |signals| && signals[i].status == status
  }

  lemma {:induction false} InStatusSnoc(signals: seq<Signal>, status: Status)
    requires |signals| > 0
    ensures var n := |signals| - 1;
            && InStatus(signals, status)
               == InStatus(signals[..n], status) + (if signals[n].status == status then {n} else {})
            && n !in InStatus(signals[..n], status)
  {
    var n := |signals| - 1;
    assert forall i :: 0 <= i < n ==> signals[..n][i] == signals[i];
  }

  /** The total is of the settled records' Rs alone, each once. */
  lemma {:induction false} TotalAdds(a: seq<Signal>, b: seq<Signal>)
    ensures TotalR(a + b) == TotalR(a) + TotalR(b)
    decreases |b|
  {
    if |b| == 0 {
      assert a + b == a;
    } else {
      TotalAdds(a, b[..|b| - 1]);
      assert (a + b)[..|a + b| - 1] == a + b[..|b| - 1];
    }
  }

  lemma {:induction false} TotalOfOne(s: Signal)
    ensures TotalR([s])
            == if s.status in {ObjectiveHit, Stopped, Expired} && s.resultR.Some? then s.resultR.value else 0.0
  {
    assert [s][..0] == [] && TotalR([]) == 0.0;
  }

  lemma {:induction false} CountOfStatus(signals: seq<Signal>, status: Status)
    ensures CountStatus(signals, status) == |InStatus(signals, status)|
  {
    if |signals| == 0 {
      assert InStatus(signals, status) == {};
    } else {
      CountOfStatus(signals[..|signals| - 1], status);
      InStatusSnoc(signals, status);
      hide InStatus;
    }
  }

  /** The settled records that made something, by their places; a stop never does. */
  ghost function Winners(signals: seq<Signal>): set<int> {
    set i | 0 <= i < |signals| && Won(signals[i])
  }

  ghost predicate Won(s: Signal) {
    s.status in {ObjectiveHit, Stopped, Expired} && s.resultR.Some? && s.resultR.value > 0.0
  }

  lemma {:induction false} WinnersSnoc(signals: seq<Signal>)
    requires |signals| > 0
    ensures var n := |signals| - 1;
            && Winners(signals) == Winners(signals[..n]) + (if Won(signals[n]) then {n} else {})
            && n !in Winners(signals[..n])
  {
    hide Won;
    var n := |signals| - 1;
    assert forall i :: 0 <= i < n ==> signals[..n][i] == signals[i];
  }

  lemma {:induction false} CountOfWins(signals: seq<Signal>)
    ensures CountWins(signals) == |Winners(signals)|
  {
    if |signals| == 0 {
      assert Winners(signals) == {};
    } else {
      var n := |signals| - 1;
      CountOfWins(signals[..n]);
      WinnersSnoc(signals);
      assert Won(signals[n]) <==> IsSettled(signals[n]) && ROf(signals[n]) > 0.0;
      hide Winners, Won, IsSettled, ROf;
    }
  }

  /** The summary on the records: each count is of one status, the fill rate is of those that filled or never will, and
      the win rate and the mean of the settled, each to its own digit. */
  lemma {:induction false} SummaryOnRecords(signals: seq<Signal>)
    ensures var m := Summarize(signals);
            && m.total == |signals| && m.pending == |InStatus(signals, Pending)|
            && m.open == |InStatus(signals, Filled)| && m.neverFilled == |InStatus(signals, NeverFilled)|
            && m.settled == |InStatus(signals, ObjectiveHit)| + |InStatus(signals, Stopped)|
                            + |InStatus(signals, Expired)|
            && m.filled == m.open + m.settled
            && m.losses == |InStatus(signals, Stopped)| && m.wins == |Winners(signals)|
            && (m.lowSample <==> 1 <= m.settled <= 14)
    ensures var m := Summarize(signals);
            && (m.filled + m.neverFilled > 0 ==>
                  WithinHalf(m.fillRate, 100.0 * m.filled as real, (m.filled + m.neverFilled) as real, 10.0))
            && (m.settled > 0 ==>
                  && WithinHalf(m.winRate, 100.0 * m.wins as real, m.settled as real, 10.0)
                  && WithinHalf(m.averageR, TotalR(signals), m.settled as real, 100.0))
  {
    CountOfStatus(signals, Pending);
    CountOfStatus(signals, Filled);
    CountOfStatus(signals, NeverFilled);
    CountOfStatus(signals, ObjectiveHit);
    CountOfStatus(signals, Stopped);
    CountOfStatus(signals, Expired);
    CountOfWins(signals);
    hide CountStatus, CountWins, TotalR, WithinHalf, InStatus, Winners;
    var m := Summarize(signals);
    if m.filled + m.neverFilled > 0 {
      PercentWithinHalf(m.filled as real, (m.filled + m.neverFilled) as real);
    }
    if m.settled > 0 {
      PercentWithinHalf(m.wins as real, m.settled as real);
      QuotientWithinHalf(TotalR(signals), m.settled as real, 100.0);
    }
  }

  /** The rates are percentages. */
  lemma {:induction false} SummaryRates(signals: seq<Signal>)
    requires forall s :: s in signals ==> Accounted(s)
    ensures var m := Summarize(signals);
            0.0 <= m.fillRate <= 100.0 && 0.0 <= m.winRate <= 100.0
  {
    SummaryCloses(signals);
    var m := Summarize(signals);
    if m.filled + m.neverFilled > 0 { PercentRounds(m.filled, m.filled + m.neverFilled); }
    if m.settled > 0 { PercentRounds(m.wins, m.settled); }
  }

  lemma {:induction false} PercentRounds(part: nat, whole: nat)
    requires part <= whole && whole > 0
    ensures 0.0 <= RoundHalfUp(part as real / whole as real * 100.0, 10.0) <= 100.0
  {
    var ratio := part as real / whole as real;
    assert ratio * whole as real == part as real;
    assert 0.0 <= ratio <= 1.0;
    var x := ratio * 100.0 * 10.0 + 0.5;
    assert 0.5 <= x <= 1000.5;
    assert 0 <= x.Floor <= 1000;
  }
}
