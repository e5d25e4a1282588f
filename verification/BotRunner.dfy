/** One bot scan: rank the tradeable candidates, walk them through the individual, position and
    portfolio gates, and open at most one paper trade. */
module BotRunner {
  import opened Trades
  import opened Ranking
  import opened DataSources
  import opened PortfolioRisk
  import opened PositionManager

  const MIN_CONFIDENCE := 75.0
  const MAX_NOTIONAL_GBP := 250.0

  datatype Signal = BuySignal | SellSignal | HoldSignal

  datatype Recommendation = StrongBuy | PlainBuy | Hold | Avoid | StrongSell

  datatype Trigger = Manual | Scheduled

  datatype StrategyScore = StrategyScore(
    symbol: string,
    instrumentName: string,
    signal: Signal,
    recommendation: Recommendation,
    confidence: real,
    agreement: Agreement,
    primaryStrategy: string,
    evidence: string)

  /** What the outside world answers while one candidate is examined: its quote, the clock, and the
      identifier a trade opened now would get. */
  datatype Reading = Reading(quote: Option<real>, telemetry: Telemetry, checkedAt: int, tradeId: string)

  /** Everything a scan does not compute itself. Readings are indexed by position in the ranking. */
  datatype ScanInput = ScanInput(
    scores: seq<StrategyScore>,
    listedPrice: string -> Option<real>,
    readings: nat -> Reading,
    history: Telemetry,
    startedAt: int,
    decisionId: string,
    scanId: string,
    trigger: Trigger)

  /** One candidate of the ranking together with all that is read about it. */
  datatype Candidate = Candidate(rank: nat, score: StrategyScore, listedPrice: Option<real>, reading: Reading,
                                 startedAt: int) {
    function Side(): Side { if score.recommendation == StrongSell then Sell else Buy }

    function Price(): real
      requires listedPrice.Some?
    {
      if reading.quote.Some? then reading.quote.value else listedPrice.value
    }

    function Notional(): real
      requires listedPrice.Some?
    {
      QuantityFor(Price()) as real * Price()
    }
  }

  datatype Rejection = UnknownInstrument | IndividualChecksFailed | PositionRefused | PortfolioRiskFailed

  datatype CandidateEvaluation = CandidateEvaluation(
    rank: nat,
    score: StrategyScore,
    side: Side,
    price: Option<real>,
    individualChecks: seq<RiskCheck>,
    individualPassed: bool,
    positionEvaluated: bool,
    positionAction: Option<PositionAction>,
    positionChecks: seq<RiskCheck>,
    existingPositionValue: Option<real>,
    positionValueAfterTrade: Option<real>,
    portfolioEvaluated: bool,
    portfolioChecks: seq<RiskCheck>,
    portfolioPassed: bool,
    accepted: bool,
    rejection: Option<Rejection>)

  datatype BotDecision = BotDecision(
    id: string,
    scanId: string,
    timestamp: int,
    trigger: Trigger,
    candidates: seq<CandidateEvaluation>,
    snapshotBefore: ExposureSnapshot,
    selectedInstrument: Option<string>,
    tradeCreated: bool,
    createdTradeId: Option<string>,
    provenance: Provenance)

  // ---- Ranking ----------------------------------------------------------------------------------

  predicate IsTradeable(s: StrategyScore) {
    s.signal != HoldSignal
    && (s.recommendation == StrongBuy || s.recommendation == PlainBuy || s.recommendation == StrongSell)
  }

  function Tradeable(scores: seq<StrategyScore>): seq<StrategyScore> {
    if scores == [] then []
    else if IsTradeable(scores[|scores| - 1]) then Tradeable(scores[..|scores| - 1]) + [scores[|scores| - 1]]
    else Tradeable(scores[..|scores| - 1])
  }

  function ConfidenceOf(s: StrategyScore): real { s.confidence }

  function Ranked(input: ScanInput): seq<StrategyScore> {
    RankDescending(Tradeable(input.scores), ConfidenceOf)
  }

  /** The candidates are walked by descending confidence, equals in the order they were scored, and
      that fixes their order. */
  lemma RankedIsTheRanking(input: ScanInput, r: seq<StrategyScore>)
    ensures r == Ranked(input) <==> IsRanking(Tradeable(input.scores), r, ConfidenceOf)
  {
    RankDescendingIsRanking(Tradeable(input.scores), ConfidenceOf);
    if IsRanking(Tradeable(input.scores), r, ConfidenceOf) {
      assert SameRuns(r, Ranked(input), ConfidenceOf);
      RankingIsUnique(r, Ranked(input), ConfidenceOf);
    }
  }

  function Candidates(input: ScanInput): (cs: seq<Candidate>)
    ensures |cs| == |Ranked(input)|
    ensures forall i | 0 <= i < |cs| ::
              cs[i].rank == i + 1 && cs[i].score == Ranked(input)[i] && cs[i].startedAt == input.startedAt
  {
    var ranked := Ranked(input);
    seq(|ranked|, i requires 0 <= i < |ranked| =>
      Candidate(i + 1, ranked[i], input.listedPrice(ranked[i].symbol), input.readings(i), input.startedAt))
  }

  // ---- Sizing -----------------------------------------------------------------------------------

  // A price of zero has no size: the quotient is infinite and the notional is not a number.
  function QuantityFor(price: real): int {
    if price == 0.0 then 0 else (MAX_NOTIONAL_GBP / price).Floor
  }

  predicate Affordable(price: real) { 0.0 < price <= 250.0 }

  lemma SizeFits(price: real)
    ensures QuantityFor(price) >= 1 && QuantityFor(price) as real * price <= MAX_NOTIONAL_GBP <==>
            0.0 < price <= MAX_NOTIONAL_GBP
    ensures 0.0 < price <= MAX_NOTIONAL_GBP ==>
              && (QuantityFor(price) + 1) as real * price > MAX_NOTIONAL_GBP
              && MAX_NOTIONAL_GBP / 2.0 < QuantityFor(price) as real * price <= MAX_NOTIONAL_GBP
  {
    if price > 0.0 {
      var ratio := MAX_NOTIONAL_GBP / price;
      var q := ratio.Floor;
      assert ratio * price == MAX_NOTIONAL_GBP;
      assert q as real * price <= ratio * price;
      assert (q as real + 1.0) * price > ratio * price;
      if price <= MAX_NOTIONAL_GBP {
        assert ratio >= 1.0;
        assert q as real * price >= 1.0 * price;
      } else {
        assert ratio < 1.0;
      }
    } else if price < 0.0 {
      assert MAX_NOTIONAL_GBP / price < 0.0;
    }
  }

  /** The size passes exactly for positive prices up to 250; it is then the largest that fits 250, and
      worth more than half of it. */
  lemma SizeIsLargestThatFits(price: real)
    ensures QuantityFor(price) >= 1 && QuantityFor(price) as real * price <= 250.0 <==> Affordable(price)
    ensures Affordable(price) ==>
              && (QuantityFor(price) + 1) as real * price > 250.0
              && 125.0 < QuantityFor(price) as real * price <= 250.0
  {
    SizeFits(price);
  }

  // ---- The three gates, stated on the trade list -------------------------------------------------

  predicate IndividualGate(c: Candidate) {
    && c.listedPrice.Some?
    && c.score.confidence >= 75.0
    && c.score.agreement != Conflict
    && Affordable(c.Price())
  }

  /** The four checks of the individual gate. */
  function IndividualChecks(score: StrategyScore, price: real): seq<RiskCheck> {
    [ RiskCheck(MaxOneTradePerScan, true),
      RiskCheck(MinimumConfidence, score.confidence >= 75.0),
      RiskCheck(AgreementNotConflict, score.agreement != Conflict),
      RiskCheck(MaxNotionalPerTrade, Affordable(price)) ]
  }

  ghost function ActionFor(acct: Account, trades: seq<PaperTrade>, c: Candidate): PositionAction
    requires IndividualGate(c)
  {
    Classified(acct, trades, c.score.symbol, c.Side(), c.score.confidence, c.score.agreement, c.Notional(),
               c.reading.checkedAt)
  }

  ghost function ActionChecks(acct: Account, trades: seq<PaperTrade>, c: Candidate): seq<RiskCheck>
    requires IndividualGate(c)
  {
    ClassificationChecks(acct, trades, c.score.symbol, c.Side(), c.score.confidence, c.score.agreement, c.Notional(),
                         c.reading.checkedAt)
  }

  ghost predicate PositionGate(acct: Account, trades: seq<PaperTrade>, c: Candidate) {
    IndividualGate(c) && (ActionFor(acct, trades, c) == NewPosition || ActionFor(acct, trades, c) == AddToPosition)
  }

  function TradeFor(c: Candidate, action: PositionAction, provenance: Provenance): PaperTrade
    requires c.listedPrice.Some?
  {
    PaperTrade(
      c.reading.tradeId, c.score.symbol, c.Side(), QuantityFor(c.Price()), c.Price(), c.startedAt, Open, FromBot,
      Some(c.score.confidence), Some(c.score.agreement), Some(action), None, None, None, provenance)
  }

  lemma OfferedTrade(c: Candidate, action: PositionAction, p: Provenance)
    requires c.listedPrice.Some?
    ensures var t := TradeFor(c, action, p);
            t.status == Open && t.symbol == c.score.symbol && t.side == c.Side() && t.Notional() == c.Notional()
  {
  }

  // Neither the action nor the provenance stamped on a trade bears on the limits.
  function Proposal(c: Candidate): PaperTrade
    requires c.listedPrice.Some?
  {
    TradeFor(c, NewPosition, SampleData)
  }

  ghost predicate PortfolioGate(acct: Account, trades: seq<PaperTrade>, c: Candidate) {
    PositionGate(acct, trades, c) && FitsPortfolio(acct, trades, Proposal(c))
  }

  /** The fetches made while these candidates were examined. */
  function Touchpoints(history: Telemetry, cs: seq<Candidate>): seq<DataSourceResult> {
    if cs == [] then [ToDataSourceResult(history)]
    else if cs[|cs| - 1].listedPrice.Some? then
      Touchpoints(history, cs[..|cs| - 1]) + [ToDataSourceResult(cs[|cs| - 1].reading.telemetry)]
    else Touchpoints(history, cs[..|cs| - 1])
  }

  /** The record kept of a candidate says exactly which gates it was taken to and passed. */
  ghost predicate Describes(acct: Account, trades: seq<PaperTrade>, c: Candidate, e: CandidateEvaluation) {
    && e.rank == c.rank && e.score == c.score && e.side == c.Side()
    && e.price == (if c.listedPrice.Some? then Some(c.Price()) else None)
    && (e.individualPassed <==> IndividualGate(c))
    && (e.individualPassed <==> AllPassed(e.individualChecks) && e.individualChecks != [])
    && e.individualChecks == (if c.listedPrice.Some? then IndividualChecks(c.score, c.Price()) else [])
    && (e.positionEvaluated <==> IndividualGate(c))
    && (if IndividualGate(c) then DescribesPosition(acct, trades, c, e) && DescribesPortfolio(acct, trades, c, e)
        else
          && e.positionAction == None && e.existingPositionValue == None && e.positionValueAfterTrade == None
          && e.positionChecks == [] && e.portfolioChecks == []
          && !e.portfolioEvaluated && !e.portfolioPassed && !e.accepted
          && e.rejection == Some(if c.listedPrice.None? then UnknownInstrument else IndividualChecksFailed))
  }

  ghost predicate DescribesPortfolio(acct: Account, trades: seq<PaperTrade>, c: Candidate, e: CandidateEvaluation)
    requires IndividualGate(c)
  {
    && (e.portfolioEvaluated <==> PositionGate(acct, trades, c))
    && e.portfolioChecks ==
       (if PositionGate(acct, trades, c) then LimitChecks(acct, trades + [Proposal(c)], Proposal(c)) else [])
    && (e.portfolioPassed <==> PortfolioGate(acct, trades, c))
    && (e.accepted <==> PortfolioGate(acct, trades, c))
    && e.rejection ==
       (if !PositionGate(acct, trades, c) then Some(PositionRefused)
        else if !PortfolioGate(acct, trades, c) then Some(PortfolioRiskFailed)
        else None)
  }

  // A tentative new or add that fails the portfolio gate is recorded as a block.
  ghost predicate DescribesPosition(acct: Account, trades: seq<PaperTrade>, c: Candidate, e: CandidateEvaluation)
    requires IndividualGate(c)
  {
    && e.positionAction == Some(
         if PositionGate(acct, trades, c) && !PortfolioGate(acct, trades, c) then BlockPosition
         else ActionFor(acct, trades, c))
    && e.positionChecks == ActionChecks(acct, trades, c)
    && e.existingPositionValue == Some(Deployed(acct, InPosition(c.score.symbol, c.Side()), OpenTrades(trades)))
    && e.positionValueAfterTrade == Some(e.existingPositionValue.value + c.Notional())
  }

  ghost predicate NoneAccepted(acct: Account, trades: seq<PaperTrade>, cs: seq<Candidate>) {
    forall c | c in cs :: !PortfolioGate(acct, trades, c)
  }

  /** One record per candidate, in ranking order. */
  ghost predicate Recorded(acct: Account, trades: seq<PaperTrade>, cs: seq<Candidate>, es: seq<CandidateEvaluation>) {
    |cs| == |es| && forall i | 0 <= i < |cs| :: Describes(acct, trades, cs[i], es[i])
  }

  /** The specification of a scan: the walk stops at the first candidate that passes all three gates. */
  ghost predicate IsWalk(acct: Account, trades: seq<PaperTrade>, cs: seq<Candidate>, es: seq<CandidateEvaluation>,
                         trade: Option<PaperTrade>, provenance: Provenance)
  {
    var n := |es|;
    && n <= |cs|
    && Recorded(acct, trades, cs[..n], es)
    && match trade
       case None => n == |cs| && NoneAccepted(acct, trades, cs)
       case Some(t) =>
         && n > 0
         && NoneAccepted(acct, trades, cs[..n - 1])
         && PortfolioGate(acct, trades, cs[n - 1])
         && t == TradeFor(cs[n - 1], ActionFor(acct, trades, cs[n - 1]), provenance)
  }

  ghost predicate IsScan(acct: Account, trades: seq<PaperTrade>, input: ScanInput, d: BotDecision,
                         trade: Option<PaperTrade>) {
    && IsWalk(acct, trades, Candidates(input), d.candidates, trade, d.provenance)
    && d.provenance == CombineDataSourceResults(Touchpoints(input.history, Candidates(input)[..|d.candidates|]))
    && IsSnapshot(acct, trades, d.snapshotBefore)
    && d.id == input.decisionId && d.scanId == input.scanId && d.timestamp == input.startedAt &&
        d.trigger == input.trigger
    && d.tradeCreated == trade.Some?
    && d.createdTradeId == (if trade.Some? then Some(trade.value.id) else None)
    && d.selectedInstrument == (if trade.Some? then Some(trade.value.symbol) else None)
  }

  // ---- The scan itself --------------------------------------------------------------------------

  method EvaluateCandidateRisk(c: StrategyScore, listedPrice: real, reading: Reading)
    returns (checks: seq<RiskCheck>, price: real, quantity: int, source: DataSourceResult)
    ensures price == if reading.quote.Some? then reading.quote.value else listedPrice
    ensures quantity == QuantityFor(price)
    ensures source == ToDataSourceResult(reading.telemetry)
    ensures checks == IndividualChecks(c, price)
    ensures AllPassed(checks) <==> c.confidence >= 75.0 && c.agreement != Conflict && Affordable(price)
  {
    checks := [RiskCheck(MaxOneTradePerScan, true)];
    var confidencePassed := c.confidence >= MIN_CONFIDENCE;
    checks := checks + [RiskCheck(MinimumConfidence, confidencePassed)];
    var agreementPassed := c.agreement != Conflict;
    checks := checks + [RiskCheck(AgreementNotConflict, agreementPassed)];
    price := if reading.quote.Some? then reading.quote.value else listedPrice;
    source := ToDataSourceResult(reading.telemetry);
    quantity := QuantityFor(price);
    var notional := quantity as real * price;
    var notionalPassed := quantity >= 1 && notional <= MAX_NOTIONAL_GBP;
    checks := checks + [RiskCheck(MaxNotionalPerTrade, notionalPassed)];
    SizeIsLargestThatFits(price);
    assert checks[1].passed == confidencePassed && checks[2].passed == agreementPassed &&
        checks[3].passed == notionalPassed;
  }

  lemma {:induction false} NothingHeld(acct: Account, symbol: string, side: Side, open: seq<PaperTrade>)
    requires Count(acct, InInstrument(symbol), open) == 0
    ensures Deployed(acct, InPosition(symbol, side), open) == 0.0
  {
    if open == [] {
    } else {
      NothingHeld(acct, symbol, side, open[..|open| - 1]);
    }
  }

  method ClassifyCandidate(acct: Account, trades: seq<PaperTrade>, c: Candidate,
                           notional: real) returns (position: PositionDecision)
    requires IndividualGate(c) && notional == c.Notional()
    ensures position.action == ActionFor(acct, trades, c) && position.checks == ActionChecks(acct, trades, c)
    ensures position.existingPositionValue == Deployed(acct, InPosition(c.score.symbol, c.Side()), OpenTrades(trades))
    ensures position.positionValueAfterTrade == position.existingPositionValue + notional
  {
    var ctx := BuildPositionContext(acct, c.score.symbol, trades, c.reading.checkedAt);
    position := EvaluatePosition(ctx, trades, c.Side(), c.score.confidence, c.score.agreement, notional);
    if position.action == NewPosition {
      NothingHeld(acct, c.score.symbol, c.Side(), OpenTrades(trades));
    }
  }

  method CheckPortfolio(acct: Account, trades: seq<PaperTrade>, snapshot: ExposureSnapshot, c: Candidate,
                        notional: real)
    returns (passed: bool, checks: seq<RiskCheck>)
    requires IndividualGate(c) && notional == c.Notional() && IsSnapshot(acct, trades, snapshot)
    ensures checks == LimitChecks(acct, trades + [Proposal(c)], Proposal(c))
    ensures passed <==> FitsPortfolio(acct, trades, Proposal(c))
  {
    passed, checks := EvaluatePortfolioRisk(acct, snapshot, c.score.symbol, c.Side(), notional);
    ProposalFits(acct, trades, c);
  }

  lemma ProposalFits(acct: Account, trades: seq<PaperTrade>, c: Candidate)
    requires c.listedPrice.Some?
    ensures Realises(Proposal(c), c.score.symbol, c.Side(), c.Notional())
    ensures FitsPortfolio(acct, trades, Proposal(c)) <==>
            HasRoomAndCash(acct, trades, c.score.symbol, c.Side(), c.Notional())
  {
    OfferedTrade(c, NewPosition, SampleData);
    FitsExactlyWithRoom(acct, trades, Proposal(c));
  }

  /** One turn of the walk: takes a candidate as far through the gates as it gets. */
  method ExamineCandidate(acct: Account, trades: seq<PaperTrade>, snapshot: ExposureSnapshot, c: Candidate)
    returns (e: CandidateEvaluation, source: Option<DataSourceResult>)
    requires IsSnapshot(acct, trades, snapshot)
    ensures Describes(acct, trades, c, e)
    ensures source == if c.listedPrice.Some? then Some(ToDataSourceResult(c.reading.telemetry)) else None
  {
    source := None;
    e := CandidateEvaluation(c.rank, c.score, c.Side(), None, [], false, false, None, [], None, None, false, [],
                             false, false,
                             Some(UnknownInstrument));
    if c.listedPrice.None? {
      return;
    }

    var checks, price, quantity, dataSource := EvaluateCandidateRisk(c.score, c.listedPrice.value, c.reading);
    source := Some(dataSource);
    e := e.(price := Some(price), individualChecks := checks, rejection := Some(IndividualChecksFailed));
    if !AllPassed(checks) {
      return;
    }

    var notional := quantity as real * price;
    var position := ClassifyCandidate(acct, trades, c, notional);
    e := e.(individualPassed := true, positionEvaluated := true,
            positionAction := Some(position.action), positionChecks := position.checks,
            existingPositionValue := Some(position.existingPositionValue),
            positionValueAfterTrade := Some(position.positionValueAfterTrade),
            rejection := Some(PositionRefused));
    if position.action != NewPosition && position.action != AddToPosition {
      return;
    }

    var passed, portfolioChecks := CheckPortfolio(acct, trades, snapshot, c, notional);
    e := e.(portfolioEvaluated := true, portfolioChecks := portfolioChecks);
    if !passed {
      e := e.(positionAction := Some(BlockPosition), rejection := Some(PortfolioRiskFailed));
      return;
    }
    e := e.(portfolioPassed := true, accepted := true, rejection := None);
  }

  /** The first `i` candidates have been examined, and none of them accepted. */
  ghost predicate Refused(acct: Account, trades: seq<PaperTrade>, cs: seq<Candidate>, i: nat,
                          es: seq<CandidateEvaluation>)
  {
    i <= |cs| && Recorded(acct, trades, cs[..i], es) && NoneAccepted(acct, trades, cs[..i])
  }

  lemma OneMoreRefused(acct: Account, trades: seq<PaperTrade>, cs: seq<Candidate>, i: nat,
                       es: seq<CandidateEvaluation>, e: CandidateEvaluation)
    requires i < |cs| && Refused(acct, trades, cs, i, es) && Describes(acct, trades, cs[i], e) && !e.accepted
    ensures Refused(acct, trades, cs, i + 1, es + [e])
  {
    assert cs[..i + 1] == cs[..i] + [cs[i]];
  }

  lemma WalkEnds(acct: Account, trades: seq<PaperTrade>, cs: seq<Candidate>, es: seq<CandidateEvaluation>,
                 p: Provenance)
    requires Refused(acct, trades, cs, |cs|, es)
    ensures IsWalk(acct, trades, cs, es, None, p)
  {
    assert cs[..|cs|] == cs;
  }

  lemma WalkStops(acct: Account, trades: seq<PaperTrade>, cs: seq<Candidate>, i: nat, es: seq<CandidateEvaluation>,
                  e: CandidateEvaluation, p: Provenance)
    requires i < |cs| && Refused(acct, trades, cs, i, es) && Describes(acct, trades, cs[i], e) && e.accepted
    ensures e.positionAction.Some?
    ensures IsWalk(acct, trades, cs, es + [e], Some(TradeFor(cs[i], e.positionAction.value, p)), p)
  {
    assert cs[..i + 1] == cs[..i] + [cs[i]];
  }

  method WalkCandidates(acct: Account, trades: seq<PaperTrade>, snapshot: ExposureSnapshot, history: Telemetry,
                        candidates: seq<Candidate>)
    returns (evaluations: seq<CandidateEvaluation>, trade: Option<PaperTrade>, dataSourceResults: seq<DataSourceResult>)
    requires IsSnapshot(acct, trades, snapshot)
    ensures IsWalk(acct, trades, candidates, evaluations, trade, CombineDataSourceResults(dataSourceResults))
    ensures dataSourceResults == Touchpoints(history, candidates[..|evaluations|])
  {
    evaluations, trade := [], None;
    dataSourceResults := [ToDataSourceResult(history)];

    for i := 0 to |candidates|
      invariant trade.None?
      invariant |evaluations| == i && Refused(acct, trades, candidates, i, evaluations)
      invariant dataSourceResults == Touchpoints(history, candidates[..i])
    {
      var c := candidates[i];
      var e, source := ExamineCandidate(acct, trades, snapshot, c);
      TouchpointsOneMore(history, candidates, i);
      if source.Some? {
        dataSourceResults := dataSourceResults + [source.value];
      }
      if e.accepted {
        var provenance := CombineDataSourceResults(dataSourceResults);
        WalkStops(acct, trades, candidates, i, evaluations, e, provenance);
        trade := Some(TradeFor(c, e.positionAction.value, provenance));
        evaluations := evaluations + [e];
        return;
      }
      OneMoreRefused(acct, trades, candidates, i, evaluations, e);
      evaluations := evaluations + [e];
    }
    assert candidates[..|candidates|] == candidates;
    WalkEnds(acct, trades, candidates, evaluations, CombineDataSourceResults(dataSourceResults));
  }

  lemma TouchpointsOneMore(history: Telemetry, cs: seq<Candidate>, i: nat)
    requires i < |cs|
    ensures Touchpoints(history, cs[..i + 1]) ==
            if cs[i].listedPrice.Some? then
              Touchpoints(history, cs[..i]) + [ToDataSourceResult(cs[i].reading.telemetry)]
            else Touchpoints(history, cs[..i])
  {
    assert cs[..i + 1][..i] == cs[..i];
  }

  method RunBotScan(acct: Account, trades: seq<PaperTrade>, input: ScanInput) returns (d: BotDecision,
                    trade: Option<PaperTrade>)
    ensures IsScan(acct, trades, input, d, trade)
  {
    var snapshotBefore := BuildExposureSnapshot(acct, trades);
    var candidates := Candidates(input);
    var evaluations, newTrade, dataSourceResults := WalkCandidates(acct, trades, snapshotBefore, input.history,
                                                                   candidates);
    trade := newTrade;
    d := BotDecision(
      input.decisionId, input.scanId, input.startedAt, input.trigger, evaluations, snapshotBefore,
      if trade.Some? then Some(trade.value.symbol) else None,
      trade.Some?,
      if trade.Some? then Some(trade.value.id) else None,
      CombineDataSourceResults(dataSourceResults));
  }
}
