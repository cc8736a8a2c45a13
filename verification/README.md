# Decision-core verification

A Dafny model of the engine's decision logic and of the backend code that acts on it, with proofs of what
the code promises. One module follows one source file (two or three where the proofs are long; `PassExamples`
holds concrete passes). `dafny verify dfyconfig.toml` checks everything; no file needs another tool.

What is modelled, from the bottom up:

- **Market structure** (`engine/smc`): candles become pivots, pivots alternating legs, legs labelled swings,
  breaks, equal levels, strong and weak swings, trend transitions, liquidity pools, sweeps and draw
  objectives. The last leg is still moving, so the theorems say what is frozen and carry it from one stage
  to the next.
- **Verdict lifecycle**: one timeframe's decision, the per-intent verdict and its overlays, demotion by the
  live record, holds, the records adopted from what is displayed, and their bar-by-bar settlement. A pass is
  a step; the theorems are about every run of passes and every chain of growing bar batches.
- **Sizing and the permit desk** (`backend/app/execution`): step rounding, the sized position, the permit
  checks, the closed-form leverage cap, and the request that ties them together.
- **Read planes**: rolling ATR, zone life and selection, backtest statistics, the derivatives card and its
  sparklines, and the forward-return store.

Loops and in-place updates stay loops, arrays and objects with fields; each is proved equal to a function
or predicate that says what it computes, and the promises are lemmas about that. Python object identity is
an index into the list that holds the object. Prices, ratios and `Decimal`s are exact reals with the
source's own rounding written out; times are whole seconds (bars) or milliseconds (adoptions).

## Where the code and its documentation part

Each of these is proved, with the exact condition under which the promise does hold.

- Pivots are called replay-safe, but the confirmation window grows with the number of candles, and a wider
  window drops pivots. `Analysis.PivotCanVanish` gives 121 bars that lose one; `Analysis.PivotRetainedIff`
  says exactly when one stays; `Analysis.ReplaySafeWhileWindowHolds` carries the promise from candles to
  verdicts while the window is unchanged.
- A settlement patch "can never be contradicted by later data" while each batch reaches what the record still
  needs (`Anticipatory.RunIsOnePass`). A later-starting batch restarts the holding horizon of a held record and
  the waiting horizon of a resting one: `Anticipatory.LateWindowContradictsHeld` and
  `Anticipatory.LateWindowContradictsResting` are such batches, `Anticipatory.LateWindowAgreesIff` and
  `Anticipatory.LatePendingAgreesIff` say exactly when one still settles the record the same way.
- A limit plan can be built across two prices: its objectives resolved at the live price, its zone selected from
  the last close. Its geometry is always sound (`Poi.PlanIsSound`), but the reward can refuse it and its entry
  can lie past the live price: `Intent.PlanAcrossPrices`. At one price neither happens: `Poi.PlanGeometry` and
  `Intent.ReuseIsFresh`.
- A sweep can be un-reported. Pools are recomputed each pass, and when the sweeping bar itself becomes a member of
  the level's open run it is no longer later than the last touch: `SweepLife.OpenRunLosesItsSweep`.
  `SweepFutures.ListedSweepStandsIff` says exactly when one recomputation keeps a sweep, and
  `SweepFutures.SweepIsFinalIff` that all futures keep it exactly when its level is taken or its run was closed by a
  completed leg.
- A caution is said to be half size. Its size and money are rounded half up, so twice the half can exceed the whole
  by a step (`Intent.HalfIsExactIff`), and the smallest size is not halved at all (`Intent.HalfCanBeFull`).
- A negative live record is said to stop full-size recommendations. A hold adopted earlier masks the
  demotion: `Evaluate.DemotionMaskedIff`, `Evaluate.HeldFavoredOutlastsDemotion`, and the concrete
  `PassExamples.DemotionOutlasted` with its record in `PassExamples.LossesAreTheRecord`.
- Repeating a pass on unchanged input is not always a no-op inside the holding horizon: a verdict adopted on a level
  already broken is adopted again (`Hysteresis.RepeatIsNoOpIff`, `Hysteresis.RepeatedPassWritesNothingIff`). This is
  reachable: `Evaluate.RepeatReadoptsIff` says from which candles and pivots, `PassExamples.RepeatReadopts` gives some.
- A permit is approved without looking at whether sizing succeeded: `PermitRequest.UnsizedCanBeApproved` is
  such a request, `PermitRequest.ApprovedPermitSizedIff` the exact condition.
- "The permit is always persisted" fails exactly for a fresh account without a positive balance, where
  sizing raises before anything is stored: `PermitRequest.PersistedIff`, with
  `PermitRequest.EmptyAccountPersistsNothing` as the input.

## Model

| member | source | states |
|---|---|---|
| Analysis.IsPivotAt | engine/smc/analysis.py:28-38 | the scan answers whether no bar within the window lies further out, or ties from the left |
| Analysis.ComputePivots | engine/smc/analysis.py:55-68 | the list is every confirmed pivot in time order, a low before a high of one bar, and empty below 2k + 1 bars |
| Analysis.PivotsOnCandles | engine/smc/analysis.py:28-68 | in candles: exactly the highs no bar before them in the window reaches and none after exceeds, and the lows the other way up |
| Analysis.WindowIsFortieth | engine/smc/analysis.py:24-25 | the window is the least whole fortieth of the candles, kept between 3 and 12 |
| Analysis.PivotsSpaced | engine/smc/analysis.py:28-38 | two pivots of one kind are more than k bars apart, ties included |
| Analysis.WindowNeverShrinks | engine/smc/analysis.py:24-25 | the window never shrinks as candles grow |
| Analysis.WiderKeepsIff | engine/smc/analysis.py:28-38 | a pivot survives a wider window exactly when the added ring does not beat it |
| Analysis.WiderKeepsSubset | engine/smc/analysis.py:28-38 | a wider window keeps a subset |
| Analysis.PivotsAppendOnly | engine/smc/analysis.py:55-68 | with the window unchanged, new candles only append pivots |
| Analysis.ReplaySafeWhileWindowHolds | engine/smc/strength.py:33-70 | from candles up: with the window unchanged a strong or weak verdict stands however many candles arrive |
| Analysis.PivotRetainedIff | engine/smc/analysis.py:55-68 | with the window free to grow, a pivot stays exactly when the wider ring does not beat it and fits |
| Analysis.PivotCanVanish | engine/smc/analysis.py:24-25 | a concrete series whose pivot is lost when one more candle widens the window |
| Structure.ToAlternatingSwings | engine/smc/structure.py:96-116 | the in-place fold computes the leg list the next rows characterize |
| Structure.LegsAlternate | engine/smc/structure.py:96-116 | legs strictly alternate and end on the kind of the last pivot |
| Structure.MaximalRunsExist | engine/smc/structure.py:96-116 | every pivot list cuts into maximal same-kind runs |
| Structure.LegsAreRunExtremes | engine/smc/structure.py:96-116 | leg k is the earliest extreme of run k, and there are no other legs |
| Structure.LegsFrozen | engine/smc/structure.py:96-116 | appended pivots change at most the last leg, and that one only moves outward |
| Structure.OutermostIsExtreme | engine/smc/structure.py:143-153 | a level's price is the extreme of its members |
| Structure.CloseRun | engine/smc/structure.py:143-153 | a closed run becomes a level exactly when it holds two members |
| Structure.BuildSwing | engine/smc/structure.py:155-192 | label, event and equal flag read off the running state are the ones the closed form gives |
| Structure.ReadTrend | engine/smc/structure.py:213-216 | the trend from the last swing of each kind is a function of the last two labels alone |
| Structure.ComputeMarketStructure | engine/smc/structure.py:119-230 | the one-pass fold over seven running variables equals a swing-by-swing closed form with no running state |
| StructureFacts.SwingsFrozen | engine/smc/structure.py:119-230 | every swing but the last keeps price, label, event and equal flag under any appended pivots |
| StructureFacts.SwingShape | engine/smc/structure.py:155-193 | swing i carries leg i, and neighbours differ in kind |
| StructureFacts.TrendOnPrices | engine/smc/structure.py:87-93 | in prices: up exactly with a risen last high and a last low that did not fall, down exactly with a fallen low and a high that did not rise |
| StructureFacts.EventOnPrices | engine/smc/structure.py:155-192 | in prices: a BOS is a risen high in an uptrend or a fallen low in a downtrend, a CHoCH the one against the trend, and nothing breaks in a range |
| StructureFacts.LastSwingsOnLegs | engine/smc/structure.py:195-230 | the last high, the last low and the event swing are the last of their kind |
| StructureFacts.LevelsOnSwings | engine/smc/structure.py:143-153 | equal highs hold highs and equal lows lows, each member a swing at its own price, at least two of them |
| StructureFacts.RunsCharacterized | engine/smc/structure.py:135-141 | the clusters are the one way to cut the same-kind legs, in order, into runs within tolerance of their first member that could not have gone on |
| StructureFacts.EqualFlagIffNonFirstMember | engine/smc/structure.py:175-192 | a swing is flagged equal exactly when it is a non-first member of an equal level |
| Strength.DeriveSwingStrength | engine/smc/strength.py:33-70 | entry i is strong, weak or unresolved by whether the swing after it breaks the one before it and is itself complete |
| Strength.VerdictNeverRetracted | engine/smc/strength.py:33-70 | a strong or weak verdict stands under any appended pivots, even while its counter-leg still extends |
| Strength.StrengthIsNextLabel | engine/smc/strength.py:33-70 | strong exactly when the next swing is labelled a break, weak exactly when it is labelled internal and frozen |
| Strength.BreakProvesStrong | engine/smc/strength.py:33-70 | a BOS or CHoCH proves the swing it launched from strong |
| TrendTransition.TransitionRecord.constructor | engine/smc/trend_transition.py:69-76 | a new record holds exactly the given transition |
| TrendTransition.TransitionRecord.Confirm | engine/smc/trend_transition.py:86-91 | confirming rewrites phase, swing and time of that one record in place and keeps its direction and CHoCH |
| TrendTransition.TrendMatchesStructure | engine/smc/trend_transition.py:79-83 | the fold's running trend is the one the structure keeps |
| TrendTransition.StructureIsLabelled | engine/smc/structure.py:155-192 | the labels and events the fold relies on are the ones the structure produces |
| TrendTransition.TrendNeverJumps | engine/smc/structure.py:87-93 | the trend never goes between up and down without a range |
| TrendTransition.ChochResolvesAtOnce | engine/smc/trend_transition.py:57-91 | every CHoCH lands in range, and the very next swing confirms its hint or kills it |
| TrendTransition.RecordFlip | engine/smc/trend_transition.py:85-103 | a forming trend upgrades the pending record or adds its own |
| TrendTransition.ReadSwing | engine/smc/trend_transition.py:57-105 | one swing keeps the running labels, trend and pending record in step with the history so far |
| TrendTransition.DeriveTrendTransitions | engine/smc/trend_transition.py:49-107 | the mutated records read as the history in which each entry depends only on its own swing and the one after |
| TrendTransition.HistoryAppendOnly | engine/smc/trend_transition.py:49-107 | reading more swings changes at most the hint of the last swing, exactly when the next swing is not the opposing extreme |
| TrendTransition.CompletedHistoryFrozen | engine/smc/trend_transition.py:49-107 | over pivots: the history of completed swings is append-only however many pivots arrive |
| Liquidity.PoolFrom | engine/smc/liquidity.py:113-167 | a pool is intact exactly when no later same-kind swing traded strictly beyond it |
| Liquidity.Confidence | engine/smc/liquidity.py:84-157 | confidence lies in 0..100 |
| Liquidity.ConfidenceFollows | engine/smc/liquidity.py:84-157 | more touches, a tighter spread or a later last touch never lower confidence |
| Liquidity.ConfidenceOfEqual | engine/smc/liquidity.py:84-157 | touches at one price up to the last swing: four are certain, three give 94, two give 80 |
| Liquidity.TakenOnSwings | engine/smc/liquidity.py:137-143 | taken means a later high above the equal highs or a later low below the equal lows |
| Liquidity.DetectLiquiditySweeps | engine/smc/liquidity.py:188-230 | the nested loops find, per pool, the sweep its first penetrating candle decides, in time order |
| LiquidityFacts.SweptIff | engine/smc/liquidity.py:188-230 | a pool has a sweep exactly when the first candle through its line after the last touch closed back: through by the high and back at or below for highs, by the low and at or above for lows |
| LiquidityFacts.SweepOnFields | engine/smc/liquidity.py:204-229 | each sweep in its own numbers: later than the touch, wicked strictly past its price and closed at or inside it |
| LiquidityFacts.SweepsAppendOnly | engine/smc/liquidity.py:188-230 | the sweep list is a prefix of the list on any ascending extension |
| LiquidityFacts.OneSweepPerPool | engine/smc/liquidity.py:193-201 | the list is exactly the swept pools, each once |
| LiquidityFacts.SweepsInTimeOrder | engine/smc/liquidity.py:226-230 | the list runs in time, then from the lowest line, then from the buy side |
| SweepLife.SettledSweepsSurvive | engine/smc/quant.py:640-642 | with the pools recomputed each pass: a sweep of a taken level, or of one whose run is already closed, is the same sweep after any further pivots and candles |
| SweepFutures.ListedSweepStandsIff | engine/smc/liquidity.py:188-230 | for one recomputation: a listed sweep is listed again under a pool of its side exactly when the line has not moved, the completing touch is still before the sweeping bar, and nothing the old touch covered traded through |
| SweepFutures.SettledIffEveryFuture | engine/smc/structure.py:119-230 | a level stays in the structure under every continuation, however late it starts, exactly when it is taken or its run was closed by a completed leg |
| SweepFutures.SweepIsFinalIff | engine/smc/quant.py:640-642 | a listed sweep is reported by every later pass, whatever pivots and candles arrive, exactly when its level is settled |
| SweepLife.OpenRunLosesItsSweep | engine/smc/liquidity.py:188-230 | concrete pivots whose sweep is gone once the sweeping bar itself joins the open run |
| LiquidityFacts.SpentStaysSpent | engine/smc/liquidity.py:137-143 | a taken level stays in the structure and stays taken whatever pivots arrive |
| LiquidityFacts.StructureLevelsListed | engine/smc/liquidity.py:119-135 | in a built structure the lookup of a level's last member never fails |
| LiquidityFacts.ComputeLiquidityPools | engine/smc/liquidity.py:170-185 | one pool per level, spent ones included, strongest first with price and side breaking ties |
| Objectives.CollectEligible | engine/smc/objectives.py:58-70 | the loop keeps exactly the untaken swings beyond the price that are not strong |
| Objectives.ResolveObjectives | engine/smc/objectives.py:35-134 | sorting, greedy assignment and de-duplication with mutable sets compute the ranked list of the next rows |
| Objectives.ServedInOrder | engine/smc/objectives.py:72-115 | a pool that coincides with a swing was taken by a swing served earlier, or the swing got one no further away |
| Objectives.DrawsOutward | engine/smc/objectives.py:79-88 | swings are served from the price outward, the earlier first at one price |
| Objectives.GreedyAssignment | engine/smc/objectives.py:72-115 | over any swings and pools: a coinciding pool a candidate did not get is no nearer than its own, or backs a swing no further from the price |
| Objectives.ObjectivesMoveAway | engine/smc/objectives.py:120-134 | prices move strictly away, all strictly beyond the starting price |
| Objectives.ObjectivesWellBacked | engine/smc/objectives.py:61-115 | every entry is an untaken, not strong swing priced at itself or at its coinciding pool, and no pool backs two |
| Objectives.ObjectivesOnPrices | engine/smc/objectives.py:58-115 | in prices: each entry is an untaken, not strong swing beyond the price, at itself or at an intact pool of its side on the way or within a thousandth |
| Objectives.ObjectivesCover | engine/smc/objectives.py:117-134 | every eligible swing's candidate level is listed, and a bare entry has no pool-backed twin at its price |
| Objectives.KeptAtPrice | engine/smc/objectives.py:117-134 | of the candidates at one price a pool-backed one is kept if there is one, and the earliest of its kind |
| Objectives.EligibleLevelsApproach | engine/smc/objectives.py:61-70 | in time order the eligible levels never get further away |
| Zones.AtrSeries | engine/smc/zones.py:51-69 | the add-and-subtract running total is the mean of the last `length` true ranges, and None exactly before that many exist |
| Zones.TrueRangeSpans | engine/smc/zones.py:51-69 | a true range is the whole way from the lower of the last close and the low to the higher of it and the high |
| Zones.ZoneFreshness | engine/smc/zones.py:162-186 | the loop returns the zone's life state: dead on a close through or a second revisit, else tested or fresh |
| Zones.LifeOnCandles | engine/smc/zones.py:162-186 | in candles: dead exactly once a bar closed through the far side or two bars came back to it from outside, fresh exactly until one does |
| Zones.ZoneOnlyAges | engine/smc/zones.py:162-186 | under appended candles a zone only goes fresh, tested, dead, and dead is final |
| Zones.SelectZonesLoop | engine/smc/zones.py:196-210 | the greedy loop computes the selection the next row describes |
| Zones.SelectionFacts | engine/smc/zones.py:196-210 | kept zones of a kind are disjoint and at most two; every dropped zone overlaps one at least as recent or met two such |
| Zones.OverlapIff | engine/smc/zones.py:196-210 | two zones of a kind overlap exactly when some price lies in both |
| Poi.SelectPoiIsBest | engine/smc/poi.py:43-86 | the selected zone is offered and none offered is preferred by side, freshness, distance and age |
| Poi.SelectionOnZones | engine/smc/poi.py:43-86 | in prices, against any other zone in the pullback: on the good half if one is, then fresh if one is, then met first, then the older |
| Poi.PlanOnZone | engine/smc/poi.py:89-125 | the limit rests at the edge met first, the stop at the far one, the target is the first objective |
| Poi.PlanGeometry | engine/smc/poi.py:89-125 | for objectives resolved at the same price the reward is never the reason to build nothing: a plan exists exactly with an objective and a selected zone of positive width, and the live price lies between entry and objective |
| Poi.PlanIsSound | engine/smc/poi.py:89-125 | whatever the objectives: a plan is built exactly with a selected zone of positive width and a first objective past its entry, and entry then lies strictly between stop and objective |
| Poi.PlannedIff | engine/smc/poi.py:89-125 | in prices: a plan is built exactly with a selected zone whose low is under its high and a first objective past the edge met first |
| Intent.PlanAcrossPrices | engine/smc/intent.py:578-596 | a concrete read, live at 95 and closed at 100, whose objectives are reused: the one at 97 is refused for its reward, the one at 105 gives a long limit at 98, above the live price |
| Quant.ReadPlanSound | engine/smc/quant.py:955-972 | the plan one timeframe reads is sound and on the side it was resolved for |
| Intent.ReuseIsFresh | engine/smc/intent.py:577-596 | which of the three plans is taken shows only when prices differ: read at the close itself, the mapped plan is always the one built there on freshly resolved objectives |
| Intent.LimitPlanSound | engine/smc/intent.py:577-596 | any limit plan an assessment carries is sound and on the assessment's side |
| Evaluate.EntryLimitSound | engine/smc/evaluate.py:61-71 | so is any limit plan an entry carries to the holds, from the timeframe reads up |
| Evaluate.LimitRecordsAccounted | engine/smc/evaluate.py:86-91 | every limit record a pass opens keeps status, price and R consistent over any run of settlement batches, and its R between -1 and the frozen reward/risk on well-formed bars |
| Poi.LevelR | engine/smc/anticipatory.py:171-178 | the stop is exactly -1R and the objective exactly the reward/risk frozen at adoption |
| Poi.SettledRInRange | engine/smc/anticipatory.py:158-210 | on well-formed bars every settled R, expiries too, lies between -1 and the frozen reward/risk |
| Poi.PassAccounted | engine/smc/anticipatory.py:213-274 | any one settlement keeps status, price and R consistent |
| Poi.RunAccounted | engine/smc/anticipatory.py:112-143 | over any run of batches a record adopted from a sound plan stays consistent, and carries no R before a position closes |
| Poi.RunRInRange | engine/smc/anticipatory.py:112-143 | over any run of batches of well-formed bars the R of a record adopted from a sound plan lies between -1 and the reward/risk frozen at adoption |
| Poi.SummaryCloses | engine/smc/anticipatory.py:303-330 | totals partition into pending, never-filled, open and settled; wins and losses fit in settled |
| Poi.SummaryRates | engine/smc/anticipatory.py:303-330 | the rates are percentages |
| Poi.SummaryOnRecords | engine/smc/anticipatory.py:303-330 | each count is of the records of one status, and the rates and the mean are theirs to half a digit |
| Tracker.WalkExitLevels | engine/smc/tracker.py:140-174 | the early-returning loop computes the exit of the next rows |
| Tracker.ExitIsEarliestTouch | engine/smc/tracker.py:140-174 | the exit is that of the earliest touching bar, stop before target 2 before target 1, and there is none exactly when no bar touches |
| Tracker.ExitOnBars | engine/smc/tracker.py:140-174 | in bars: the first to reach a level exits at the stop, or else the far target, or else the near one; a long is stopped from below and paid from above |
| Tracker.ResultOnPrices | engine/smc/tracker.py:140-174 | R is what was made per unit risked on the trade's side, to half a hundredth |
| Tracker.ExitConcat | engine/smc/tracker.py:140-174 | more bars never move an exit already found |
| Anticipatory.WalkFilledPosition | engine/smc/anticipatory.py:158-210 | the bar loop computes the walk the next row characterizes |
| Anticipatory.WalkMeaning | engine/smc/anticipatory.py:158-210 | the first deciding bar within the horizon closes the position, the fill bar only at its stop; else it expires exactly at the horizon |
| Anticipatory.WalkOnFields | engine/smc/anticipatory.py:158-210 | in bars: the first to reach the stop closes at it, the first past the fill bar to reach only the objective pays, a full horizon inside expires at its last close |
| Anticipatory.FillIndex | engine/smc/anticipatory.py:234-239 | the fill is the first bar touching the limit |
| Anticipatory.FillsExactlyAt | engine/smc/anticipatory.py:228-253 | in bars: a resting long is filled at exactly the first bar after adoption, within the horizon, whose low reaches the limit, a short at the first whose high does |
| Anticipatory.UnreachedRests | engine/smc/anticipatory.py:228-243 | a limit no bar of the wait reaches rests until the wait is full and is then never filled |
| Anticipatory.SettleAnticipatorySignal | engine/smc/anticipatory.py:213-274 | the three-state settlement equals its specification |
| Anticipatory.PassConcat | engine/smc/anticipatory.py:213-226 | settling a batch and then the longer batch merges to what the longer batch alone gives |
| Anticipatory.RunIsOnePass | backend/app/forward_test/repo.py:269-300 | over any chain of growing batches, each reaching what the record needs by then (the adoption while resting, the fill bar while held, nothing once closed), merging the patches leaves the record exactly as one settlement of the whole history up to the last bar |
| Anticipatory.CoveringRunIsOnePass | engine/smc/anticipatory.py:213-226 | when every batch reaches the adoption, it is as one settlement of the last batch alone |
| Anticipatory.TerminalPatchStands | engine/smc/anticipatory.py:216-220 | a terminal patch is returned unchanged on every longer batch |
| Anticipatory.FillStands | engine/smc/anticipatory.py:216-220 | a fill time once issued is the same on every longer batch |
| Anticipatory.LateWindowAgreesIff | engine/smc/anticipatory.py:258-272 | a batch starting after the fill bar settles a held record as the full batch does exactly when the bars it lost decide nothing and the kept history does not run out of the horizon undecided |
| Anticipatory.LatePendingAgreesIff | engine/smc/anticipatory.py:237-257 | a batch starting after the adoption settles a resting record as the full batch does exactly when it keeps the fill bar or, without a fill, the horizon is not yet complete |
| Anticipatory.LateWindowContradictsHeld | engine/smc/anticipatory.py:258-272 | a concrete held record: stopped by the full batch, at its objective by the late one |
| Anticipatory.LateWindowContradictsResting | engine/smc/anticipatory.py:237-257 | a concrete resting record: stopped by the full batch, only just filled by the late one |
| Shadow.SettleShadowSignal | engine/smc/shadow.py:138-195 | settlement equals its specification on the held bars |
| Shadow.ShadowPatchStands | engine/smc/shadow.py:138-195 | a settled call settles the same on every longer batch |
| Shadow.ShadowExitMeaning | engine/smc/shadow.py:138-195 | the earliest touching bar of the hold decides, and a call times out exactly when a full hold touches nothing |
| Shadow.ShadowOnBars | engine/smc/shadow.py:138-195 | in bars: the first touching bar of the hold settles at the stop, else the far target, else the near one, an untouched full hold at its last close, and nothing before |
| Shadow.AddToBucket | engine/smc/shadow.py:248-254 | one closed call goes into exactly its own combination's bucket |
| Shadow.ShadowComboStats | engine/smc/shadow.py:236-270 | one row per setup and regime with a closed call, computed from exactly those calls, most traded first |
| Shadow.CallsInOrder | engine/smc/shadow.py:236-254 | a combination's bucket is the Rs of exactly its closed calls of the engine version asked for, in order |
| Shadow.StatOnCalls | engine/smc/shadow.py:256-269 | the row counts the calls, the winners' share and the mean R to half a digit, and demotes from fifteen on below zero |
| Shadow.ProvenNegativeMeaning | engine/smc/shadow.py:281-300 | demotion needs at least fifteen closed calls of exactly this combination with a negative rounded average, and that suffices |
| Shadow.NoteOnRecord | engine/smc/shadow.py:273-334 | a call carries a note exactly from fifteen closed calls of its combination on, marked demoted exactly when it was favored and the record is |
| Shadow.AdjustedSized | engine/smc/shadow.py:273-334 | demotion halves once: favored becomes the half plan, caution stays that half plan, never a quarter |
| Quant.LeanMeaning | engine/smc/quant.py:570-594 | a timeframe leans to a side exactly when setup, regime or structure names it and neither regime nor structure names the other |
| Quant.FreshBreakLeans | engine/smc/structure.py:61-84 | a BOS or CHoCH at the last swing leans the structure its own way at once, though a CHoCH leaves a range |
| Quant.RangeLeanIff | engine/smc/structure.py:61-84 | in a range the structure leans exactly while one of the last two legs is a break, the later of them its own way; an older break leans no more |
| Quant.NoVeto | engine/smc/quant.py:899-928 | with no veto standing, neither the regime nor the structure leans against the setup |
| Quant.CandidatesAgree | engine/smc/quant.py:930-955 | a candidate's side is its setup's, its plan's and its lean |
| RiskPlanning.NearestPivotMeaning | engine/smc/quant.py:265-291 | the nearest level is a facing pivot none is nearer than, and there is none exactly when no pivot faces the close |
| RiskPlanning.LevelOnWrongSideIff | engine/smc/quant.py:265-291 | the level read is on the wrong side of the close exactly when no pivot faces the close and the 20-bar extreme before it lies beyond it, and then it is that extreme |
| RiskPlanning.SupportOnPrices | engine/smc/quant.py:265-278 | support is the highest pivot low under the close, else the lowest low of the twenty bars before the last |
| RiskPlanning.ResistanceOnPrices | engine/smc/quant.py:281-291 | resistance is the lowest pivot high over the close, else the highest high of the twenty bars before the last |
| Quotes.RoundPriceMonotone | engine/smc/quant.py:206-218 | quoting never reverses the order of two prices, across magnitude bands and signs |
| Quotes.RoundPriceKeeps | engine/smc/quant.py:206-218 | no price down to 1e-8 collapses: its quote is within one part in twenty thousand |
| RiskPlanning.DefendedIsDeeper | engine/smc/quant.py:495-504 | the leg extreme a swing stop goes behind is never nearer than the raw level |
| RiskPlanning.FrameOnReads | engine/smc/quant.py:474-505 | a plan is read from the live price if positive, else the last close, the mean of fourteen ranges or two percent, and the nearest raw and defended levels |
| RiskPlanning.StopSideIff | engine/smc/quant.py:507-521 | the stop is on the losing side exactly when its method's own setting is positive; a swing stop always, by 0.7 of the range |
| RiskPlanning.PlanIsOrdered | engine/smc/quant.py:523-560 | the entry zone never reaches the stop, both targets lie ahead, target 1 pays at least 1.8 and target 2 exactly 3 |
| RiskPlanning.LongPlanOnPrices | engine/smc/quant.py:507-540 | a long plan in prices: the stop by its method, the zone down to the nearest of three floors, the targets the farther of the level and 1.8R, and 3R |
| RiskPlanning.ShortPlanOnPrices | engine/smc/quant.py:507-540 | a short plan the other way up |
| RiskPlanning.SwingPlanIsSound | engine/smc/quant.py:474-567 | from candles and pivots up: the stop is behind the nearest raw level, the rest in order |
| RiskPlanning.FirstTargetFirstIff | engine/smc/quant.py:534-539 | target 1 lies within target 2 exactly when the far level is within 3R |
| RiskPlanning.RewardVetoNeverFires | engine/smc/quant.py:776-910 | the reward/risk veto cannot fire while the configured minimum is at most 1.8, as by default |
| RiskPlanning.DefaultRewardVetoNeverFires | engine/smc/quant.py:776-910 | with the default settings the reward/risk veto is never among the reasons, whatever the candles and pivots |
| RiskPlanning.SizeNearBudget | engine/smc/quant.py:545-546 | what the size risks is within half a millionth unit of the budget, and exceeds it exactly when the cut-off part is a half or more |
| RiskPlanning.SizeZeroIff | engine/smc/quant.py:927-928 | the zero-size veto fires exactly without risk or with a unit's risk above two million budgets |
| RiskPlanning.CandidateIff | engine/smc/quant.py:899-940 | from candles, pivots and settings to the decision: a side is a candidate exactly when its setup stands at confidence 55 in a tape that is not choppy, with volume, nothing leaning against it or in its way, and a unit's risk within two million budgets; the reward is never the reason |
| Intent.CautionMeaning | engine/smc/intent.py:360-544 | caution exactly when confirmed and either counter-trend, or not extended with a pool in reach or the crowd extreme on the same side |
| Intent.AvoidMeaning | engine/smc/intent.py:360-449 | avoid exactly without a lean to act on, or, unconfirmed on a short horizon, with dead volatility or two weak opposed leans; no overlay makes or lifts it |
| Intent.NearestOpposing | engine/smc/intent.py:456-479 | the running-nearest scan finds a pool in reach exactly when some opposing intact pool is in reach |
| Intent.ReachOnPools | engine/smc/intent.py:456-479 | a pool is in reach exactly when an intact pool ahead of the entry is closer, in percent of it, than 55% of the context's ATR and at least 0.35 |
| Intent.AssessIntent | engine/smc/intent.py:315-705 | the overwriting method equals its specification: verdict, overlays, size, plan |
| Intent.AssessmentSized | engine/smc/intent.py:315-705 | a plan is present exactly on favored and caution; favored is the full plan at size 1, caution its half plan: the same trade with size and money halved, each rounded half up to its step |
| Intent.AssessmentOnReads | engine/smc/intent.py:315-705 | an assessment carries each timeframe's lean in its place, and is against the context exactly when both name a side and they differ |
| Intent.ScalePlanHalves | engine/smc/intent.py:169-183 | scaling by a half gives the one half plan: direction and prices unchanged, size nearest to half in millionths, money in cents, ties up |
| Intent.HalfIsExactIff | engine/smc/intent.py:169-183 | twice the half is the whole exactly for an even number of steps; an odd one is overshot by one step, none undershot |
| Intent.HalfCanBeFull | engine/smc/intent.py:169-183 | at a size of one millionth risking one cent the half plan is as large as the full one |
| Intent.FavoredMeaning | engine/smc/intent.py:360-544 | favored exactly when confirmed, not counter-trend, not extended, no pool in reach and the crowd not extreme on the same side |
| Intent.FavoredOnReads | engine/smc/intent.py:360-544 | favored on a side in the reads: its candidate, the context behind a long horizon and not against a short one, not extended, no pool blocking the entry and no extreme crowd on it |
| Hysteresis.CapturedLevels | engine/smc/hysteresis.py:150-196 | a hold is released by closing through the level behind its side and confirmed through the level ahead; a neutral one by no level |
| Hysteresis.ReconcileHolds | engine/smc/hysteresis.py:288-326 | every entry is shown against the holds the pass began with; updates and opened records are exactly the new adoptions |
| Hysteresis.PassStep | engine/smc/hysteresis.py:299-324 | one entry extends display, updates and opened records together |
| Hysteresis.ReplacedOnlyOnRelease | engine/smc/hysteresis.py:205-248 | a hold is replaced exactly on age-out, a close through its level, a context flip or a same-direction upgrade |
| Hysteresis.StandsOnFields | engine/smc/hysteresis.py:205-248 | a hold stands exactly while it is within its hours, its level is unbroken, the context has not turned to another side, and the fresh verdict is no better on its side |
| Hysteresis.DisplayIsCurrent | engine/smc/hysteresis.py:205-248 | what is displayed is never outranked by a fresh read of its own side, nor held against the context or through its level |
| Hysteresis.HeldCallShows | engine/smc/hysteresis.py:150-285 | a held call is displayed with the verdict and trade it was adopted with, on the fresh context and execution |
| Hysteresis.OpenedIff | engine/smc/hysteresis.py:299-324 | a record is opened for exactly the entries favored before demotion whose hold does not stand |
| Hysteresis.RankNeverFalls | engine/smc/hysteresis.py:205-248 | over any run without age-out, break or flip the displayed rank never falls and a named direction never changes |
| Hysteresis.DisplayProvenance | engine/smc/hysteresis.py:255-326 | over any run what is displayed was adopted at one pass of it, no older than the holding horizon |
| Hysteresis.RepeatIsNoOpIff | engine/smc/hysteresis.py:150-248 | at any later time: the verdict just adopted still stands exactly while it is inside its holding horizon and its level is not already broken |
| Hysteresis.RepeatedPassWritesNothingIff | engine/smc/hysteresis.py:288-326 | the whole pass: repeated at any later time it updates no hold exactly when every entry is quiet in that sense, and then opens no record |
| Evaluate.RepeatReadoptsIff | engine/smc/hysteresis.py:150-248 | within the horizon and on levels quoted from candles and pivots, the repeat adopts anew exactly when no pivot faces the close, the 20-bar extreme lies beyond it, and the two quotes differ |
| PassExamples.RepeatReadopts | engine/smc/hysteresis.py:150-248 | concrete bars, the pass that reads them and the swing trade it waits long on, adopted again at any later time |
| Evaluate.EvaluateSymbol | engine/smc/evaluate.py:61-98 | a pass displays, updates and opens what the parts specify, and returns nothing exactly without an assessment |
| Evaluate.EntrySized | engine/smc/evaluate.py:61-71 | after demotion an entry is still the full plan on favored, its half plan on caution, without plan otherwise |
| Evaluate.FavoredAdoptionsOpen | engine/smc/evaluate.py:80-85 | every adoption favored before demotion opens a shadow record |
| Evaluate.UpdatesAreStored | backend/app/forward_test/repo.py:354-372 | writing the updates over the stored holds gives the next store |
| Evaluate.RunPerIntent | backend/app/forward_test/repo.py:354-372 | over a run each intent's hold is the fold of its own passes |
| Evaluate.DisplaySizedOverRuns | engine/smc/evaluate.py:61-98 | over every run from an empty store, what is displayed is the full plan on favored, its half plan on caution and none otherwise, from the pass it was adopted at |
| Evaluate.DisplayIsShownAt | engine/smc/evaluate.py:61-98 | what the last pass of a run displays for an intent is the fold of that intent's own passes |
| Evaluate.DisplayedIsSized | engine/smc/evaluate.py:61-98 | so the entry the pass itself displays is the full plan, the half plan or none by its verdict, over every run |
| Evaluate.DemotionMaskedIff | engine/smc/shadow.py:276-279 | a demoted call is still shown favored exactly when a favored hold stands |
| Evaluate.HeldFavoredOutlastsDemotion | engine/smc/shadow.py:276-279 | a favored call adopted before its record turned negative stays displayed at full size |
| PassExamples.LossesAreTheRecord | engine/smc/shadow.py:276-300 | fifteen stopped calls make exactly one demoted combination |
| PassExamples.DemotionOutlasted | engine/smc/shadow.py:276-300 | two concrete passes: the second demotes the call by that record and still displays it favored at full size |
| Backtest.Streaks | engine/smc/quant.py:1068-1080 | the streak counters are the most wins (losses) in any stretch without a loss (win) |
| Backtest.StreakOfOneSign | engine/smc/quant.py:1068-1080 | nothing but wins is one streak of all of them; nothing but losses and flat trades is none |
| Backtest.StreakAcross | engine/smc/quant.py:1068-1080 | a flat trade neither ends a streak nor joins it, a trade of the other sign ends it |
| Backtest.Replay | engine/smc/quant.py:1012-1064 | the index loop finds exactly the trades of the next rows, and its running drawdown is the largest fall of the equity curve |
| Backtest.FirstHitMeaning | engine/smc/quant.py:1037-1051 | a trade is decided by its earliest touching bar, the stop first, and by none exactly when no held bar touches |
| Backtest.TradeMeaning | engine/smc/quant.py:1037-1059 | on positive settings a trade is exactly -1, or the configured ratio, by the bar that first touches; else its R at the close of the hold |
| Backtest.TradeTouched | engine/smc/quant.py:1020-1059 | in candles: the first of the ten bars after the entry to reach a level loses 1R at the stop, or else makes the ratio |
| Backtest.TradeUntouched | engine/smc/quant.py:1037-1059 | untouched, the trade makes what the last of those bars closed away from the entry, over the risk |
| Backtest.TradesInOrder | engine/smc/quant.py:1012-1064 | the trades are those of the bars from the 56th on that trade, one each and in order |
| Backtest.RunBacktest | engine/smc/quant.py:1001-1105 | drawdown and streaks together, against their definitions |
| Sizing.RoundDownIsGreatest | backend/app/execution/sizing.py:51-61 | the rounded value is the greatest step multiple not above the value |
| Sizing.BudgetRounds | backend/app/execution/sizing.py:260-261 | the rounded quantity fits the budget and one step more does not |
| Sizing.QuantityFillsBudget | backend/app/execution/sizing.py:218-320 | an approved size meets the minimums, is the greatest step multiple in budget, and never exceeds the risk amount or fraction |
| Sizing.ApprovedIff | backend/app/execution/sizing.py:249-280 | sizing approves exactly with the stop on its side, both prices on tick and the minimums met |
| Sizing.RefusedFor | backend/app/execution/sizing.py:218-290 | each refusal in numbers: a stop not on the losing side, then a price that is no whole number of ticks, then the minimum quantity, then the minimum notional |
| Sizing.ApprovalNumbers | backend/app/execution/sizing.py:282-320 | margin times leverage is the notional, effective leverage times balance too, and a long is liquidated below its entry by the margin less the maintenance rate, a short as far above |
| RiskEngine.DecisionMeaning | backend/app/execution/risk_engine.py:431-487 | the reasons are exactly the failing checks; approved exactly when none fails |
| RiskEngine.ReasonsOnFields | backend/app/execution/risk_engine.py:189-487 | each of the thirteen reasons appears exactly when its own fields of proposal, account and constitution violate it |
| RiskEngine.LooseningNeverAddsReason | backend/app/execution/risk_engine.py:189-428 | a looser constitution, empty lists and zero limits included, never adds a reason |
| RiskEngine.LeverageCapIsExact | backend/app/execution/risk_engine.py:307-388 | above leverage 1 the liquidation check passes exactly up to the unrounded closed-form cap |
| RiskEngine.LowerLeveragePasses | backend/app/execution/risk_engine.py:330-388 | passing is downward closed in leverage |
| PermitRequest.PermitDesk.ServerAccountState | backend/app/execution/permit_request_service.py:134-173 | the state and errors reported, each error counted once and nothing else |
| PermitRequest.PermitDesk.RequestPermit | backend/app/execution/permit_request_service.py:176-313 | exactly one permit is appended, approved or rejected, unless sizing raised |
| PermitRequest.StateOnReads | backend/app/execution/permit_request_service.py:117-173 | the state judged is stale exactly with an error, one per failed read, and otherwise the fetched account with the flags just read |
| PermitRequest.PermitOnTicket | backend/app/execution/permit_request_service.py:176-256 | what is judged is the ticket itself, with its sized notional as a share of the balance and its sized liquidation, neither from a stale account |
| PermitRequest.UnfreshAlwaysRejected | backend/app/execution/permit_request_service.py:117-173 | any dependency error makes a persisted rejection that names the stale state |
| PermitRequest.ApprovalNeedsCleanRead | backend/app/execution/permit_request_service.py:134-256 | an approval has a clean read and no binding cooldown active |
| PermitRequest.PersistedIff | backend/app/execution/permit_request_service.py:189-224 | a valid ticket's permit is persisted exactly when the state is stale or the balance positive |
| PermitRequest.EmptyAccountPersistsNothing | backend/app/execution/permit_request_service.py:189-224 | a concrete fresh account with balance 0 that persists nothing under any constitution |
| PermitRequest.ApprovedPermitIsSafe | backend/app/execution/permit_request_service.py:202-256 | a sized approval loses at most the constitution's risk at its stop, keeps its bucket in the cap, has any liquidation strictly past the stop, and comes from an account strictly within both loss limits, its position count and its lists |
| PermitRequest.ApprovedPermitSizedIff | backend/app/execution/permit_request_service.py:226-256 | under the positive minimum risk/reward validation.py demands, an approved permit is sized exactly with both prices on tick and the minimums met |
| PermitRequest.UnsizedCanBeApproved | backend/app/execution/permit_request_service.py:226-256 | a concrete approved permit that was never sized, with its uncomputed liquidation between stop and entry |
| Derivatives.Weighted | backend/app/derivatives/service.py:135-153 | the accumulating loop is the renormalised weighted mean |
| Derivatives.MeanBetween | backend/app/derivatives/service.py:135-153 | the mean exists exactly when a component is present, and lies between the present values |
| Derivatives.CrowdingSide | backend/app/derivatives/service.py:308-327 | if nothing known is on the shorts' side the crowd reads at or above the middle, and the other way up |
| Derivatives.CrowdingOfAll | backend/app/derivatives/service.py:308-327 | with everything known: four tenths funding, three the account ratio, three the mean of the two top-trader ratios |
| Derivatives.CrowdingKnownIff | backend/app/derivatives/service.py:308-327 | crowding is known exactly when the funding or a positive ratio is |
| Derivatives.ScaleMeaning | backend/app/derivatives/service.py:114-118 | a reading over its bound scores the middle at zero, the ends at the bound and past it, straight between |
| Derivatives.PickAtLoop | backend/app/derivatives/service.py:159-181 | the running-nearest loop picks what the next row describes |
| Derivatives.PickMeaning | backend/app/derivatives/service.py:159-181 | a sample is picked exactly when it carries the metric, is within tolerance and is the earliest closest |
| Derivatives.DeltaMeaning | backend/app/derivatives/service.py:191-209 | a delta is the percent move from the sample picked at the window's start to the newest carrier, with the move's sign |
| Derivatives.DeltaOnSamples | backend/app/derivatives/service.py:159-209 | in samples: from the one nearest the window's start, at most half the window or ten minutes off, to the newest that carries open interest |
| Derivatives.ShortTableAnswersNothing | backend/app/derivatives/service.py:167-209 | a table too short for a window answers no delta for it |
| Derivatives.CrowdingInRange | backend/app/derivatives/service.py:308-327 | the crowding score lies in 0..100 |
| Derivatives.MomentumInRange | backend/app/derivatives/service.py:340-364 | the momentum score lies in 0..100 |
| Derivatives.MomentumOfAll | backend/app/derivatives/service.py:340-364 | with everything known momentum is the mean at weights 40, 35, 15 and 10 |
| Derivatives.MomentumKnownIff | backend/app/derivatives/service.py:340-364 | momentum is known exactly when the moves are evidence or the flow, funding or premium is known |
| Derivatives.ExpansionQuadrants | backend/app/derivatives/service.py:287-305 | an expansion class is named exactly when both moves reach the threshold, by their signs |
| Derivatives.SqueezePairWithinHundred | backend/app/derivatives/service.py:367-400 | the pair is non-negative and sums to at most 100 even after each side is rounded half-even |
| Derivatives.SqueezeMirrors | backend/app/derivatives/service.py:390-400 | mirroring the crowd and the move swaps the pair |
| Derivatives.SqueezeFollowsTheMove | backend/app/derivatives/service.py:372-400 | a faster rise or more open interest never eases the shorts, and a rise alone never presses the longs |
| Derivatives.SqueezeOnScales | backend/app/derivatives/service.py:367-400 | each side is its share of the crowd under pressure of interest added and of the move against it, a rise against shorts and a fall against longs |
| Derivatives.CardInRange | backend/app/derivatives/service.py:621-708 | every score on a card is in range |
| Derivatives.CardWithout | backend/app/derivatives/service.py:606-708 | without open interest the squeeze has no fuel, without prices no speed, and without either the moves are no evidence |
| Derivatives.HistorySeries | backend/app/derivatives/service.py:743-775 | the loop emits the rounded value of every sample at or after the cutoff that has one |
| Derivatives.ValueUsesOnlyThePast | backend/app/derivatives/service.py:711-740 | a point is the value of the samples up to it |
| Derivatives.LastPointIsTheCard | backend/app/derivatives/service.py:743-775 | whenever the card shows a value the line ends on it at the latest sample |
| Derivatives.HistoryNeverRewritten | backend/app/derivatives/service.py:711-775 | appended samples rewrite no point: old points stay until they slide out of the window |
| ForwardReturns.ComputeForwardReturns | backend/app/evidence/forward_returns.py:68-112 | the nested loops emit the rows of the next rows' specification, and none below two candles |
| ForwardReturns.RowsMeaning | backend/app/evidence/forward_returns.py:68-112 | a row exists exactly for a positive base close whose future bar is in the list |
| ForwardReturns.RowsOnCandles | backend/app/evidence/forward_returns.py:68-112 | in candles: each row is stamped at its bar's close, from that close to the one the horizon later, as a return on the first |
| ForwardReturns.HorizonsAreAhead | backend/app/evidence/constants.py:27-34 | the configured horizons are keyed once each and all look ahead |
| ForwardReturns.RowsOrderedAndExact | backend/app/evidence/forward_returns.py:68-112 | rows come by bar, then horizon, and each return reproduces its future close |
| ForwardReturns.WindowRowsAreRows | backend/app/evidence/forward_returns.py:10-19 | the rows of a contiguous window are exactly the rows of the series whose two bars lie in it |
| ForwardReturns.KeyNamesOneRow | backend/app/evidence/repo.py:49-73 | keys never collide over ascending bars |
| ForwardReturns.ForwardReturnStore.Insert | backend/app/evidence/repo.py:49-81 | insert-or-ignore, reporting how many rows were new |
| ForwardReturns.StoredMeaning | backend/app/evidence/repo.py:49-81 | a stored row never changes, and a new one is an offered row under its own key |
| ForwardReturns.StoreIsExact | backend/app/evidence/repo.py:49-81 | after any windows of any symbols, in any order and repetition, the table is exactly the rows some window saw |
| ForwardReturns.CoveredIsComplete | backend/app/evidence/repo.py:49-81 | once each base/future pair lies in some window the table is the full row set |
| ForwardReturns.OrderIsIrrelevant | backend/app/evidence/repo.py:49-81 | the same windows in any order and repetition leave the same table |

## Left out

- Setup and regime classification and component scores (quant.py): inputs of `Quant.RawRead`, as is the plan, whose own arithmetic is `RiskPlanning`; thresholds over averages that would add only easy members.
- A plan's prices are proved about before they are rounded for quotation. The close and the levels a hold is released by are taken as quoted (`Quotes.RoundPrice`); a price that is not finite is not modelled.
- Entry-location grading, market sessions and cross-timeframe zone confluence: `extended` is an input of the verdict.
- All display copy: headlines, summaries, notes, checklists, triggers, labels and price formatting.
- Base-zone detection, confidence tiers, display pivots, trend lines and EMA series: tables and arithmetic nothing modelled here depends on.
- The dealing range is reduced to its equilibrium, which is all the zone preference reads.
- IEEE rounding and Decimal's 28-digit context: reals are exact, so the two `assert`s in `size_position` can never fire here.
- ISO formatting and parsing: the identity on whole seconds and milliseconds; a stored time that does not parse is `None`.
- `math.log` in the ratio scores: an arbitrary function, so the range results hold for any.
- Upper-casing of symbols, the session clock, the quality score, permit expiry and the card layout of `request_permit`.
- The hint text's `quantize(0.01)`, which can round the cap up: the unrounded cap is what is proved.
- The user-tracked records of tracker.py besides the shared exit walk, and the shadow-record summary: the same sums again.
- Funding trend, regime classification, intelligence copy and the cross-symbol summary of the derivatives plane: no further state or order.
- Concurrency between workers: a pass, a settlement and an insert are each one step.
- HTTP, websocket, exchange and database plumbing, and the frontend.
- Liquidity.TightnessScore: a zero anchor price scores 0, because the source would raise there and prices are positive.
- Liquidity.DetectLiquiditySweeps: does not carry the penetration fraction, which only display reads.
- Backtest.Replay: whether a bar's setup matches and its ATR are inputs (`Look`), because the classifiers are not modelled; the averages, rates and profit factor are left out as plain arithmetic on the trade list.
- ForwardReturns.ComputeForwardReturns: horizons are non-negative bar counts and the bar length is the default; a gap in the series is not detected, as in the source.
- Anticipatory.RunIsOnePass: for batches that each reach what the record needs by then; a later-starting one restarts a horizon, and `Anticipatory.LateWindowAgreesIff` and `Anticipatory.LatePendingAgreesIff` cover those.
- Derivatives.HistorySeries: takes the metric as a function of the samples so far; `Derivatives.ValueUsesOnlyThePast` ties the indexed metric to it.
