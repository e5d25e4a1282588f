/** What the records of a scan report, said of the scores, the trade list and the gates, field by field. */
module RecordMeaning {
  import opened Trades
  import opened PortfolioRisk
  import opened BotRunner
  import opened DecisionRecords
  import opened OutcomeAnalysis
  import opened ScanMeaning

  function PriceExamined(input: ScanInput, s: StrategyScore, i: nat): Option<real> {
    if input.listedPrice(s.symbol).Some? then Some(Quoted(input, s, i)) else None
  }

  /** The record names its scan and its score, with the side the score calls for and the price that was
      examined, and nothing of an outcome yet. */
  predicate TellsScore(acct: Account, input: ScanInput, s: StrategyScore, i: nat, r: DecisionRecord) {
    && r.version == 1 && r.rank == i + 1
    && r.id == "decision-record-" + input.decisionId + "-" + s.symbol + "-" + Decimal(i + 1)
    && r.scanId == input.scanId && r.sourceDecisionId == input.decisionId
    && r.timestamp == input.startedAt && r.trigger == input.trigger
    && r.symbol == s.symbol && r.instrumentName == s.instrumentName && r.sector == acct.sectorOf(s.symbol)
    && (r.side == Sell <==> s.recommendation == StrongSell)
    && r.entryPrice == PriceExamined(input, s, i)
    && r.strategyUsed == s.primaryStrategy && r.evidenceSummary == s.evidence
    && r.agreement == s.agreement && r.confidence == s.confidence
    && r.outcome == Pending && r.realisedPnl == None && r.realisedPnlPercent == None
    && r.holdingMinutes == None && r.closedAt == None && r.outcomeRecordedAt == None
  }

  lemma RecordTellsItsScore(acct: Account, trades: seq<PaperTrade>, input: ScanInput, d: BotDecision,
                            trade: Option<PaperTrade>, walk: seq<StrategyScore>, i: nat)
    requires IsScan(acct, trades, input, d, trade) && IsWalkOrder(input.scores, walk) && i < |d.candidates|
    ensures i < |walk| && TellsScore(acct, input, walk[i], i, BuildDecisionRecords(acct, d)[i])
    ensures BuildDecisionRecords(acct, d)[i] == Base(BuildDecisionRecords(acct, d)[i])
  {
    RankedIsTheWalkOrder(input, walk);
    LastAlone(acct, trades, input, d, trade, i);
    CandidateOfScore(input, i);
  }

  /** The baseline figures of every record are those of the trade list that the scan saw. */
  lemma RecordTellsTheBook(acct: Account, trades: seq<PaperTrade>, input: ScanInput, d: BotDecision,
                           trade: Option<PaperTrade>, r: DecisionRecord)
    requires IsScan(acct, trades, input, d, trade) && r in BuildDecisionRecords(acct, d)
    ensures r.deployedCapital == Deployed(acct, Everything, OpenTrades(trades))
    ensures r.availableCash == AvailableCash(acct, trades)
    ensures r.sectorExposure == Deployed(acct, InSector(acct.sectorOf(r.symbol)), OpenTrades(trades))
    ensures r.totalOpenTrades == |OpenTrades(trades)|
  {
    SnapshotOfScan(acct, trades, input, d, trade);
  }

  lemma SnapshotOfScan(acct: Account, trades: seq<PaperTrade>, input: ScanInput, d: BotDecision,
                       trade: Option<PaperTrade>)
    requires IsScan(acct, trades, input, d, trade)
    ensures IsSnapshot(acct, trades, d.snapshotBefore)
  {
  }

  // ---- Why a score was not traded -----------------------------------------------------------------

  predicate IsSound(s: StrategyScore, price: real) {
    s.confidence >= 75.0 && s.agreement != Conflict && 0.0 < price <= 250.0
  }

  /** The record names the first gate that its score failed at the price examined, with shares worth so
      much, and how far it came. */
  ghost predicate TellsVerdict(acct: Account, trades: seq<PaperTrade>, s: StrategyScore, price: Option<real>,
                               worth: real, now: int, r: DecisionRecord)
  {
    var sound := price.Some? && IsSound(s, price.value);
    var holds := sound && MayHold(acct, trades, s, worth, now);
    var fits := holds && HasRoomAndCash(acct, trades, s.symbol, SideOf(s), worth);
    IsVerdict(price.Some?, sound, holds, fits, r)
  }

  predicate IsVerdict(listed: bool, sound: bool, holds: bool, fits: bool, r: DecisionRecord) {
    && r.rejection ==
       (if !listed then Some(UnknownInstrument)
        else if !sound then Some(IndividualChecksFailed)
        else if !holds then Some(PositionRefused)
        else if !fits then Some(PortfolioRiskFailed)
        else None)
    && r.portfolioRisk == (if !holds then NotEvaluated else if fits then RiskPassed else RiskFailed)
    && r.tradeOpened == fits
    && (r.positionAction.Some? <==> sound)
  }

  lemma EvaluationTellsTheGates(acct: Account, trades: seq<PaperTrade>, d: BotDecision, c: Candidate,
                                e: CandidateEvaluation)
    requires Describes(acct, trades, c, e)
    ensures IsVerdict(c.listedPrice.Some?, IndividualGate(c), PositionGate(acct, trades, c),
                      PortfolioGate(acct, trades, c), RecordOf(acct, d, e))
  {
  }

  lemma GatesMean(acct: Account, trades: seq<PaperTrade>, c: Candidate, worth: real)
    requires c.listedPrice.Some? && (Affordable(c.Price()) ==> worth == c.Notional())
    ensures IndividualGate(c) <==> IsSound(c.score, c.Price())
    ensures PositionGate(acct, trades, c) <==>
            IsSound(c.score, c.Price()) && MayHold(acct, trades, c.score, worth, c.reading.checkedAt)
    ensures PortfolioGate(acct, trades, c) <==>
            PositionGate(acct, trades, c) && HasRoomAndCash(acct, trades, c.score.symbol, SideOf(c.score), worth)
  {
    if IndividualGate(c) {
      RoomExactly(acct, trades, c, worth);
      PositionExactly(acct, trades, c, worth, c.reading.checkedAt);
    }
  }

  lemma GatesAreTheVerdict(acct: Account, trades: seq<PaperTrade>, c: Candidate, price: Option<real>, worth: real,
                           r: DecisionRecord)
    requires IsVerdict(c.listedPrice.Some?, IndividualGate(c), PositionGate(acct, trades, c),
                       PortfolioGate(acct, trades, c), r)
    requires price == if c.listedPrice.Some? then Some(c.Price()) else None
    requires c.listedPrice.Some? && Affordable(c.Price()) ==> worth == c.Notional()
    ensures TellsVerdict(acct, trades, c.score, price, worth, c.reading.checkedAt, r)
  {
    if c.listedPrice.Some? { GatesMean(acct, trades, c, worth); }
  }

  /** What the shares are worth that 250 buys at the price. */
  ghost predicate IsWorth(price: real, worth: real) {
    0.0 < price <= 250.0 ==> exists q: int :: IsSize(q, price) && worth == q as real * price
  }

  lemma WorthIsNotional(c: Candidate, worth: real)
    requires c.listedPrice.Some? && Affordable(c.Price()) && IsWorth(c.Price(), worth)
    ensures worth == c.Notional()
  {
    SizeIsQuantity(c.Price());
  }

  /** Every record tells the first gate that its score failed, exactly. */
  lemma RecordTellsTheVerdict(acct: Account, trades: seq<PaperTrade>, input: ScanInput, d: BotDecision,
                              trade: Option<PaperTrade>, walk: seq<StrategyScore>, i: nat, worth: real)
    requires IsScan(acct, trades, input, d, trade) && IsWalkOrder(input.scores, walk) && i < |d.candidates|
    requires i < |walk|
    requires var price := PriceExamined(input, walk[i], i); price.Some? ==> IsWorth(price.value, worth)
    ensures TellsVerdict(acct, trades, walk[i], PriceExamined(input, walk[i], i), worth, input.readings(i).checkedAt,
                         BuildDecisionRecords(acct, d)[i])
  {
    var c := Candidates(input)[i];
    RankedIsTheWalkOrder(input, walk);
    LastAlone(acct, trades, input, d, trade, i);
    CandidateOfScore(input, i);
    if c.listedPrice.Some? && Affordable(c.Price()) { WorthIsNotional(c, worth); }
    EvaluationTellsTheGates(acct, trades, d, c, d.candidates[i]);
    GatesAreTheVerdict(acct, trades, c, PriceExamined(input, walk[i], i), worth, BuildDecisionRecords(acct, d)[i]);
  }
}
