/** The Position Manager: what a candidate would do to the position already held in its instrument. */
module PositionManager {
  import opened Trades
  import opened Ranking

  const MIN_CONFIDENCE_IMPROVEMENT := 5.0
  const MAX_POSITION_VALUE_GBP := 750.0
  const MIN_ADD_INTERVAL_MINUTES := 30
  const MS_PER_MINUTE := 60000

  datatype PositionContext = PositionContext(
    symbol: string,
    existingOpenTradeCount: nat,
    valueBySide: BySide<real>,
    countBySide: BySide<nat>,
    minutesSinceLastTrade: Option<real>)

  datatype PositionDecision = PositionDecision(
    action: PositionAction,
    checks: seq<RiskCheck>,
    existingPositionValue: real,
    positionValueAfterTrade: real)

  // ---- What the classification means for a trade list -------------------------------------------

  /** Every trade ever placed in the instrument, open or closed, is at least 30 minutes old. */
  ghost predicate Rested(trades: seq<PaperTrade>, symbol: string, now: int) {
    forall t | t in trades && t.symbol == symbol :: now - t.timestamp >= 1800000
  }

  predicate Comparable(t: PaperTrade, symbol: string, side: Side) {
    t.status == Open && t.symbol == symbol && t.side == side && t.source == FromBot && t.confidence.Some?
  }

  function ComparableTrades(trades: seq<PaperTrade>, symbol: string, side: Side): (r: seq<PaperTrade>)
    ensures forall t :: t in r <==> t in trades && Comparable(t, symbol, side)
  {
    if trades == [] then []
    else
      var init, last := trades[..|trades| - 1], trades[|trades| - 1];
      assert trades == init + [last];
      if last.status == Open && last.symbol == symbol && last.side == side && last.source == FromBot
         && last.confidence.Some?
      then ComparableTrades(init, symbol, side) + [last]
      else ComparableTrades(init, symbol, side)
  }

  function PlacedAt(t: PaperTrade): real { t.timestamp as real }

  /** The bot's newest open trade on this instrument and side. */
  function LatestBotTrade(trades: seq<PaperTrade>, symbol: string, side: Side): Option<PaperTrade> {
    var ranked := RankDescending(ComparableTrades(trades, symbol, side), PlacedAt);
    if ranked == [] then None else Some(ranked[0])
  }

  /** The `k`-th trade is comparable; no other such trade is later, and those of the same instant come
      after it in the list. */
  predicate IsLatestBotTrade(trades: seq<PaperTrade>, symbol: string, side: Side, k: nat) {
    && k < |trades| && Comparable(trades[k], symbol, side)
    && forall j | 0 <= j < |trades| && Comparable(trades[j], symbol, side) ::
         trades[j].timestamp < trades[k].timestamp || (trades[j].timestamp == trades[k].timestamp && k <= j)
  }

  /** One more trade takes the lead exactly if it is comparable and later. */
  lemma LatestOneMore(init: seq<PaperTrade>, last: PaperTrade, symbol: string, side: Side)
    ensures LatestBotTrade(init + [last], symbol, side) ==
            var latest := LatestBotTrade(init, symbol, side);
            if Comparable(last, symbol, side) && (latest.None? || latest.value.timestamp < last.timestamp)
            then Some(last) else latest
  {
    var candidates := ComparableTrades(init, symbol, side);
    assert (init + [last])[..|init|] == init;
    if Comparable(last, symbol, side) {
      assert (candidates + [last])[..|candidates|] == candidates;
      RankDescendingIsRanking(candidates, PlacedAt);
      if candidates != [] {
        HeadIsGreatest(candidates, RankDescending(candidates, PlacedAt), PlacedAt, candidates[0]);
        InsertHead(RankDescending(candidates, PlacedAt), last, PlacedAt);
      }
    }
  }

  lemma {:induction false} LatestBotTradeAt(trades: seq<PaperTrade>, symbol: string, side: Side) returns (k: nat)
    requires LatestBotTrade(trades, symbol, side).Some?
    ensures IsLatestBotTrade(trades, symbol, side, k) && LatestBotTrade(trades, symbol, side) == Some(trades[k])
  {
    var init, last := trades[..|trades| - 1], trades[|trades| - 1];
    assert trades == init + [last];
    LatestOneMore(init, last, symbol, side);
    k := |init|;
    if LatestBotTrade(init, symbol, side).Some? {
      var before := LatestBotTradeAt(init, symbol, side);
      if !(Comparable(last, symbol, side) && init[before].timestamp < last.timestamp) { k := before; }
    } else {
      NoneIsComparable(init, symbol, side);
    }
  }

  lemma NoneIsComparable(trades: seq<PaperTrade>, symbol: string, side: Side)
    ensures LatestBotTrade(trades, symbol, side).None? <==> forall t | t in trades :: !Comparable(t, symbol, side)
  {
    var candidates := ComparableTrades(trades, symbol, side);
    RankDescendingIsRanking(candidates, PlacedAt);
    if RankDescending(candidates, PlacedAt) == [] {
      forall t | t in candidates
        ensures false
      {
        HeadIsGreatest(candidates, RankDescending(candidates, PlacedAt), PlacedAt, t);
      }
    } else {
      RankingMembers(candidates, RankDescending(candidates, PlacedAt), PlacedAt,
                     RankDescending(candidates, PlacedAt)[0]);
    }
  }

  /** The trade found is the first of the latest comparable ones in the list; there is one exactly if
      some trade is comparable. */
  lemma LatestBotTradeIsLatest(trades: seq<PaperTrade>, symbol: string, side: Side)
    ensures var latest := LatestBotTrade(trades, symbol, side);
            && (latest.None? <==> forall t | t in trades :: !Comparable(t, symbol, side))
            && forall k: nat | IsLatestBotTrade(trades, symbol, side, k) :: latest == Some(trades[k])
  {
    NoneIsComparable(trades, symbol, side);
    if LatestBotTrade(trades, symbol, side).Some? {
      var k := LatestBotTradeAt(trades, symbol, side);
    }
  }

  lemma LatestIsComparable(trades: seq<PaperTrade>, symbol: string, side: Side, x: PaperTrade)
    requires x in trades && Comparable(x, symbol, side)
    ensures var latest := LatestBotTrade(trades, symbol, side);
            latest.Some? && latest.value in trades && Comparable(latest.value, symbol, side)
  {
    NoneIsComparable(trades, symbol, side);
    var k := LatestBotTradeAt(trades, symbol, side);
  }

  /** Confidence is up by 5 points on the bot's newest open trade here. */
  predicate MoreConfident(trades: seq<PaperTrade>, symbol: string, side: Side, confidence: real) {
    var latest := LatestBotTrade(trades, symbol, side);
    latest.Some? && latest.value.confidence.Some? && confidence >= latest.value.confidence.value + 5.0
  }

  /** Agreement is no weaker than on it. */
  predicate AgreementKept(trades: seq<PaperTrade>, symbol: string, side: Side, agreement: Agreement) {
    var latest := LatestBotTrade(trades, symbol, side);
    latest.Some? && latest.value.agreement.Some? && NoWeaker(agreement, latest.value.agreement.value)
  }

  ghost function Classified(acct: Account, trades: seq<PaperTrade>, symbol: string, side: Side, confidence: real,
                            agreement: Agreement, notional: real, now: int): PositionAction
  {
    var open := OpenTrades(trades);
    if Count(acct, InInstrument(symbol), open) == 0 then NewPosition
    else if Deployed(acct, InPosition(symbol, side.Opposite()), open) > 0.0
         || Deployed(acct, InPosition(symbol, side), open) + notional > 750.0 then BlockPosition
    else if MoreConfident(trades, symbol, side, confidence) && AgreementKept(trades, symbol, side, agreement)
            && Rested(trades, symbol, now) then AddToPosition
    else HoldPosition
  }

  /** The checks that go with it. */
  ghost function ClassificationChecks(acct: Account, trades: seq<PaperTrade>, symbol: string, side: Side,
                                      confidence: real, agreement: Agreement, notional: real,
                                      now: int): seq<RiskCheck>
  {
    var open := OpenTrades(trades);
    if Count(acct, InInstrument(symbol), open) == 0 then []
    else if Deployed(acct, InPosition(symbol, side.Opposite()), open) > 0.0 then [RiskCheck(SideMatchesPosition, false)]
    else
      [ RiskCheck(SideMatchesPosition, true),
        RiskCheck(ConfidenceImproved, MoreConfident(trades, symbol, side, confidence)),
        RiskCheck(AgreementNotWeaker, AgreementKept(trades, symbol, side, agreement)),
        RiskCheck(PositionValueWithinCap, Deployed(acct, InPosition(symbol, side), open) + notional <= 750.0),
        RiskCheck(MinimumTimeSinceLastAdd, Rested(trades, symbol, now)) ]
  }

  ghost predicate IsClassified(acct: Account, trades: seq<PaperTrade>, symbol: string, side: Side, confidence: real,
                               agreement: Agreement, notional: real, now: int, d: PositionDecision)
  {
    && d.action == Classified(acct, trades, symbol, side, confidence, agreement, notional, now)
    && d.checks == ClassificationChecks(acct, trades, symbol, side, confidence, agreement, notional, now)
  }

  /** What becomes of a candidate for an instrument held on its own side, below the cap, with the `k`-th
      trade the bot's latest there: within half an hour of any trade it is held, later it is added
      exactly if it is 5 points more confident and its agreement no weaker. */
  lemma HeldPositionGrowsOnImprovement(acct: Account, trades: seq<PaperTrade>, symbol: string, side: Side,
                                       confidence: real, agreement: Agreement, notional: real, now: int, k: nat)
    requires Count(acct, InInstrument(symbol), OpenTrades(trades)) > 0
    requires IsLatestBotTrade(trades, symbol, side, k)
    ensures var action := Classified(acct, trades, symbol, side, confidence, agreement, notional, now);
            var open := OpenTrades(trades);
            && (action == BlockPosition <==>
                  || Deployed(acct, InPosition(symbol, if side == Buy then Sell else Buy), open) > 0.0
                  || Deployed(acct, InPosition(symbol, side), open) + notional > 750.0)
            && (action == AddToPosition <==>
                  && action != BlockPosition
                  && confidence >= trades[k].confidence.value + 5.0
                  && trades[k].agreement.Some? && NoWeaker(agreement, trades[k].agreement.value)
                  && forall t | t in trades && t.symbol == symbol :: now - t.timestamp >= 1800000)
            && action != NewPosition
  {
    LatestBotTradeIsLatest(trades, symbol, side);
  }

  // ---- The context ------------------------------------------------------------------------------

  ghost predicate Holds(acct: Account, symbol: string, open: seq<PaperTrade>, existing: nat, value: BySide<real>,
                        count: BySide<nat>) {
    && existing == Count(acct, InInstrument(symbol), open)
    && value.buy == Deployed(acct, InPosition(symbol, Buy), open)
    && value.sell == Deployed(acct, InPosition(symbol, Sell), open)
    && count.buy == Count(acct, InPosition(symbol, Buy), open)
    && count.sell == Count(acct, InPosition(symbol, Sell), open)
  }

  lemma HoldingOneMore(acct: Account, symbol: string, open: seq<PaperTrade>, t: PaperTrade, existing: nat,
                       value: BySide<real>, count: BySide<nat>)
    requires Holds(acct, symbol, open, existing, value, count)
    ensures if t.symbol == symbol then
              Holds(acct, symbol, open + [t], existing + 1, value.With(t.side, value.At(t.side) + t.Notional()),
                    count.With(t.side, count.At(t.side) + 1))
            else Holds(acct, symbol, open + [t], existing, value, count)
  {
    OneMore(acct, InInstrument(symbol), open, t);
    forall d: Side
      ensures Deployed(acct, InPosition(symbol, d), open + [t]) ==
              Deployed(acct, InPosition(symbol, d), open) + Share(acct, InPosition(symbol, d), t)
      ensures Count(acct, InPosition(symbol, d), open + [t]) ==
              Count(acct, InPosition(symbol, d), open) + Unit(acct, InPosition(symbol, d), t)
    {
      OneMore(acct, InPosition(symbol, d), open, t);
    }
  }

  ghost predicate IsContext(acct: Account, trades: seq<PaperTrade>, now: int, ctx: PositionContext) {
    var open := OpenTrades(trades);
    && Holds(acct, ctx.symbol, open, ctx.existingOpenTradeCount, ctx.valueBySide, ctx.countBySide)
    && IsMinutesSince(trades, ctx.symbol, now, ctx.minutesSinceLastTrade)
  }

  /** `t` is a trade of the instrument, open or closed, and none of them is later. */
  ghost predicate IsNewest(trades: seq<PaperTrade>, symbol: string, t: PaperTrade) {
    && t in trades && t.symbol == symbol
    && forall x | x in trades && x.symbol == symbol :: x.timestamp <= t.timestamp
  }

  /** The minutes that have passed since the instrument's newest trade, if it ever had one. */
  ghost predicate IsMinutesSince(trades: seq<PaperTrade>, symbol: string, now: int, minutes: Option<real>) {
    match minutes
    case None => forall t | t in trades :: t.symbol != symbol
    case Some(value) => exists t :: IsNewest(trades, symbol, t) && value == MinutesBetween(t.timestamp, now)
  }

  function MinutesBetween(earlier: int, now: int): real {
    (now - earlier) as real / 60000.0
  }

  lemma MinutesReach(earlier: int, now: int)
    ensures MinutesBetween(earlier, now) >= 30.0 <==> now - earlier >= 1800000
  {
  }

  /** The minutes reach 30 exactly when every trade of the instrument is 30 minutes old. */
  lemma ThirtyMinutesIsRested(trades: seq<PaperTrade>, symbol: string, now: int, minutes: Option<real>)
    requires IsMinutesSince(trades, symbol, now, minutes) && minutes.Some?
    ensures minutes.value >= 30.0 <==> Rested(trades, symbol, now)
  {
    var t :| IsNewest(trades, symbol, t) && minutes.value == MinutesBetween(t.timestamp, now);
    MinutesReach(t.timestamp, now);
  }

  method BuildPositionContext(acct: Account, symbol: string, trades: seq<PaperTrade>,
                              now: int) returns (ctx: PositionContext)
    ensures ctx.symbol == symbol && IsContext(acct, trades, now, ctx)
  {
    var openTrades := OpenTrades(trades);
    var existing := 0;
    var valueBySide, countBySide := BySide(0.0, 0.0), BySide(0, 0);
    ghost var seen: seq<PaperTrade> := [];
    for i := 0 to |openTrades|
      invariant seen == openTrades[..i]
      invariant Holds(acct, symbol, seen, existing, valueBySide, countBySide)
    {
      var trade := openTrades[i];
      HoldingOneMore(acct, symbol, seen, trade, existing, valueBySide, countBySide);
      seen := seen + [trade];
      if trade.symbol == symbol {
        existing := existing + 1;
        valueBySide := valueBySide.With(trade.side, valueBySide.At(trade.side) + trade.Notional());
        countBySide := countBySide.With(trade.side, countBySide.At(trade.side) + 1);
      }
    }
    assert seen == openTrades;
    var minutes := MinutesSinceLastTrade(symbol, trades, now);
    ctx := PositionContext(symbol, existing, valueBySide, countBySide, minutes);
  }

  method MinutesSinceLastTrade(symbol: string, trades: seq<PaperTrade>, now: int) returns (minutes: Option<real>)
    ensures IsMinutesSince(trades, symbol, now, minutes)
  {
    var latest: Option<int> := None;
    ghost var newest: Option<PaperTrade> := None;
    for i := 0 to |trades|
      invariant latest.None? ==> forall j | 0 <= j < i :: trades[j].symbol != symbol
      invariant latest.Some? ==>
                  && newest.Some? && newest.value in trades
                  && newest.value.symbol == symbol && newest.value.timestamp == latest.value
      invariant latest.Some? ==>
                  forall j | 0 <= j < i && trades[j].symbol == symbol :: trades[j].timestamp <= latest.value
    {
      if trades[i].symbol == symbol && (latest.None? || trades[i].timestamp > latest.value) {
        latest, newest := Some(trades[i].timestamp), Some(trades[i]);
      }
    }
    if latest.None? {
      return None;
    }
    assert IsNewest(trades, symbol, newest.value);
    minutes := Some((now - latest.value) as real / MS_PER_MINUTE as real);
    assert minutes.value == MinutesBetween(newest.value.timestamp, now);
  }

  // ---- The classification -----------------------------------------------------------------------

  method EvaluatePosition(ctx: PositionContext, trades: seq<PaperTrade>, side: Side, confidence: real,
                          agreement: Agreement, notional: real)
    returns (d: PositionDecision)
    ensures forall acct, now | IsContext(acct, trades, now, ctx) ::
              IsClassified(acct, trades, ctx.symbol, side, confidence, agreement, notional, now, d)
    ensures AllPassed(d.checks) <==> d.action == NewPosition || d.action == AddToPosition
    ensures d.positionValueAfterTrade == d.existingPositionValue + notional
    ensures d.existingPositionValue == if d.action == NewPosition then 0.0 else ctx.valueBySide.At(side)
  {
    var sameSideValue := ctx.valueBySide.At(side);
    var oppositeSideValue := ctx.valueBySide.At(side.Opposite());
    var valueAfterTrade := sameSideValue + notional;

    if ctx.existingOpenTradeCount == 0 {
      d := PositionDecision(NewPosition, [], 0.0, notional);
      NotHeldIsNew(trades, ctx, side, confidence, agreement, notional, d);
      return;
    }
    if oppositeSideValue > 0.0 {
      var conflict := RiskCheck(SideMatchesPosition, false);
      assert ![conflict][0].passed;
      d := PositionDecision(BlockPosition, [conflict], sameSideValue, valueAfterTrade);
      OtherSideIsBlocked(trades, ctx, side, confidence, agreement, notional, d);
      return;
    }

    var latest := LatestBotTrade(trades, ctx.symbol, side);
    var checks := [RiskCheck(SideMatchesPosition, true)];

    var confidencePassed := latest.Some? && latest.value.confidence.Some?
                            && confidence >= latest.value.confidence.value + MIN_CONFIDENCE_IMPROVEMENT;
    checks := checks + [RiskCheck(ConfidenceImproved, confidencePassed)];

    var agreementPassed := latest.Some? && latest.value.agreement.Some?
                           && agreement.Rank() >= latest.value.agreement.value.Rank();
    RanksDecideAgreement(trades, ctx.symbol, side, agreement);
    checks := checks + [RiskCheck(AgreementNotWeaker, agreementPassed)];

    var valuePassed := valueAfterTrade <= MAX_POSITION_VALUE_GBP;
    checks := checks + [RiskCheck(PositionValueWithinCap, valuePassed)];

    var timePassed := ctx.minutesSinceLastTrade.Some?
                      && ctx.minutesSinceLastTrade.value >= MIN_ADD_INTERVAL_MINUTES as real;
    checks := checks + [RiskCheck(MinimumTimeSinceLastAdd, timePassed)];

    assert checks == FiveChecks(confidencePassed, agreementPassed, valuePassed, timePassed);
    FivePass(confidencePassed, agreementPassed, valuePassed, timePassed);
    var action := if AllPassed(checks) then AddToPosition else if !valuePassed then BlockPosition else HoldPosition;
    d := PositionDecision(action, checks, sameSideValue, valueAfterTrade);

    HeldIsClassified(trades, ctx, side, confidence, agreement, notional, timePassed, d);
  }

  lemma HeldIsClassified(trades: seq<PaperTrade>, ctx: PositionContext, side: Side, confidence: real,
                         agreement: Agreement, notional: real, timePassed: bool, d: PositionDecision)
    requires ctx.existingOpenTradeCount > 0 && ctx.valueBySide.At(side.Opposite()) <= 0.0
    requires timePassed <==> ctx.minutesSinceLastTrade.Some? && ctx.minutesSinceLastTrade.value >= 30.0
    requires d.checks == FiveChecks(MoreConfident(trades, ctx.symbol, side, confidence),
                                    AgreementKept(trades, ctx.symbol, side, agreement),
                                    ctx.valueBySide.At(side) + notional <= 750.0, timePassed)
    requires d.action == if AllPassed(d.checks) then AddToPosition
                         else if ctx.valueBySide.At(side) + notional > 750.0 then BlockPosition
                         else HoldPosition
    ensures forall acct, now | IsContext(acct, trades, now, ctx) ::
              IsClassified(acct, trades, ctx.symbol, side, confidence, agreement, notional, now, d)
  {
    FivePass(MoreConfident(trades, ctx.symbol, side, confidence), AgreementKept(trades, ctx.symbol, side, agreement),
             ctx.valueBySide.At(side) + notional <= 750.0, timePassed);
    forall acct, now | IsContext(acct, trades, now, ctx)
      ensures IsClassified(acct, trades, ctx.symbol, side, confidence, agreement, notional, now, d)
    {
      ClassifiedByContext(acct, trades, now, ctx, side, confidence, agreement, notional);
    }
  }

  lemma NotHeldIsNew(trades: seq<PaperTrade>, ctx: PositionContext, side: Side, confidence: real,
                     agreement: Agreement, notional: real, d: PositionDecision)
    requires ctx.existingOpenTradeCount == 0 && d.action == NewPosition && d.checks == []
    ensures forall acct, now | IsContext(acct, trades, now, ctx) ::
              IsClassified(acct, trades, ctx.symbol, side, confidence, agreement, notional, now, d)
  {
  }

  lemma OtherSideIsBlocked(trades: seq<PaperTrade>, ctx: PositionContext, side: Side, confidence: real,
                           agreement: Agreement, notional: real, d: PositionDecision)
    requires ctx.existingOpenTradeCount > 0 && ctx.valueBySide.At(side.Opposite()) > 0.0
    requires d.action == BlockPosition && d.checks == [RiskCheck(SideMatchesPosition, false)]
    ensures forall acct, now | IsContext(acct, trades, now, ctx) ::
              IsClassified(acct, trades, ctx.symbol, side, confidence, agreement, notional, now, d)
  {
  }

  function FiveChecks(confidence: bool, agreement: bool, value: bool, time: bool): seq<RiskCheck> {
    [ RiskCheck(SideMatchesPosition, true), RiskCheck(ConfidenceImproved, confidence),
      RiskCheck(AgreementNotWeaker, agreement), RiskCheck(PositionValueWithinCap, value),
      RiskCheck(MinimumTimeSinceLastAdd, time) ]
  }

  lemma FivePass(confidence: bool, agreement: bool, value: bool, time: bool)
    ensures AllPassed(FiveChecks(confidence, agreement, value, time)) <==> confidence && agreement && value && time
  {
    var checks := FiveChecks(confidence, agreement, value, time);
    assert checks[1].passed == confidence && checks[2].passed == agreement;
    assert checks[3].passed == value && checks[4].passed == time;
  }

  lemma RanksDecideAgreement(trades: seq<PaperTrade>, symbol: string, side: Side, agreement: Agreement)
    ensures var latest := LatestBotTrade(trades, symbol, side);
            AgreementKept(trades, symbol, side, agreement) <==>
              latest.Some? && latest.value.agreement.Some? && agreement.Rank() >= latest.value.agreement.value.Rank()
  {
    var latest := LatestBotTrade(trades, symbol, side);
    if latest.Some? && latest.value.agreement.Some? {
      RanksOrderAgreements(agreement, latest.value.agreement.value);
    }
  }

  ghost function HeldChecks(ctx: PositionContext, trades: seq<PaperTrade>, side: Side, confidence: real,
                            agreement: Agreement, notional: real): seq<RiskCheck>
    requires ctx.minutesSinceLastTrade.Some?
  {
    FiveChecks(MoreConfident(trades, ctx.symbol, side, confidence), AgreementKept(trades, ctx.symbol, side, agreement),
               ctx.valueBySide.At(side) + notional <= 750.0, ctx.minutesSinceLastTrade.value >= 30.0)
  }

  lemma ClassifiedByContext(acct: Account, trades: seq<PaperTrade>, now: int, ctx: PositionContext, side: Side,
                            confidence: real, agreement: Agreement, notional: real)
    requires IsContext(acct, trades, now, ctx)
    requires ctx.existingOpenTradeCount > 0 && ctx.valueBySide.At(side.Opposite()) <= 0.0
    ensures ctx.minutesSinceLastTrade.Some?
    ensures var checks := HeldChecks(ctx, trades, side, confidence, agreement, notional);
            && checks == ClassificationChecks(acct, trades, ctx.symbol, side, confidence, agreement, notional, now)
            && Classified(acct, trades, ctx.symbol, side, confidence, agreement, notional, now) ==
               if !checks[3].passed then BlockPosition
               else if checks[1].passed && checks[2].passed && checks[4].passed then AddToPosition
               else HoldPosition
  {
    HeldIsTimed(acct, trades, now, ctx);
  }

  /** An instrument with an open trade has its minutes, which reach 30 exactly when it is rested. */
  lemma HeldIsTimed(acct: Account, trades: seq<PaperTrade>, now: int, ctx: PositionContext)
    requires IsContext(acct, trades, now, ctx) && ctx.existingOpenTradeCount > 0
    ensures ctx.minutesSinceLastTrade.Some?
    ensures ctx.minutesSinceLastTrade.value >= 30.0 <==> Rested(trades, ctx.symbol, now)
  {
    CountedMember(acct, ctx.symbol, OpenTrades(trades));
    OpenTradesMembers(trades);
    ThirtyMinutesIsRested(trades, ctx.symbol, now, ctx.minutesSinceLastTrade);
  }

  lemma {:induction false} CountedMember(acct: Account, symbol: string, open: seq<PaperTrade>)
    ensures Count(acct, InInstrument(symbol), open) > 0 <==> exists t :: t in open && t.symbol == symbol
  {
    if open == [] {
    } else {
      var init, last := open[..|open| - 1], open[|open| - 1];
      assert open == init + [last];
      CountedMember(acct, symbol, init);
    }
  }
}
