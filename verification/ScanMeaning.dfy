/** What a scan decides, said of the scores it was given, the trades it saw and the trade and records it
    left: which score is traded, at what size and on which side, and what every record reports. */
module ScanMeaning {
  import opened Trades
  import opened Ranking
  import opened PortfolioRisk
  import opened PositionManager
  import opened BotRunner

  // ---- The order of the walk ----------------------------------------------------------------------

  predicate IsCall(s: StrategyScore) {
    && (s.signal == BuySignal || s.signal == SellSignal)
    && (s.recommendation == StrongBuy || s.recommendation == PlainBuy || s.recommendation == StrongSell)
  }

  /** The scores of one confidence that are a clear call, in the order given. */
  function CallsOfConfidence(scores: seq<StrategyScore>, k: real): seq<StrategyScore> {
    if scores == [] then []
    else
      var before, last := CallsOfConfidence(scores[..|scores| - 1], k), scores[|scores| - 1];
      if IsCall(last) && last.confidence == k then before + [last] else before
  }

  /** From the most confident call down, equals in the order in which they were scored. */
  ghost predicate IsWalkOrder(scores: seq<StrategyScore>, r: seq<StrategyScore>) {
    && (forall i | 0 <= i < |r| :: IsCall(r[i]))
    && (forall i, j | 0 <= i < j < |r| :: r[i].confidence >= r[j].confidence)
    && forall k: real :: CallsOfConfidence(r, k) == CallsOfConfidence(scores, k)
  }

  lemma {:induction false} CallsAreKeyed(scores: seq<StrategyScore>, k: real)
    ensures CallsOfConfidence(scores, k) == WithKey(Tradeable(scores), ConfidenceOf, k)
  {
    if scores == [] {
    } else {
      var init, last := scores[..|scores| - 1], scores[|scores| - 1];
      CallsAreKeyed(init, k);
      if IsCall(last) {
        assert (Tradeable(init) + [last])[..|Tradeable(init)|] == Tradeable(init);
      }
    }
  }

  lemma {:induction false} AllCallsStay(r: seq<StrategyScore>)
    requires forall i | 0 <= i < |r| :: IsCall(r[i])
    ensures Tradeable(r) == r
  {
    if r == [] {
    } else {
      AllCallsStay(r[..|r| - 1]);
    }
  }

  lemma {:induction false} TradeableMembers(scores: seq<StrategyScore>, s: StrategyScore)
    ensures s in Tradeable(scores) <==> s in scores && IsCall(s)
  {
    if scores == [] {
    } else {
      TradeableMembers(scores[..|scores| - 1], s);
      assert scores == scores[..|scores| - 1] + [scores[|scores| - 1]];
    }
  }

  lemma RankedAreCalls(input: ScanInput)
    ensures forall s :: s in Ranked(input) <==> s in input.scores && IsCall(s)
  {
    RankDescendingIsRanking(Tradeable(input.scores), ConfidenceOf);
    forall s
      ensures s in Ranked(input) <==> s in input.scores && IsCall(s)
    {
      RankingMembers(Tradeable(input.scores), Ranked(input), ConfidenceOf, s);
      TradeableMembers(input.scores, s);
    }
  }

  /** The ranking is the one walk order of the scores. */
  lemma RankedIsTheWalkOrder(input: ScanInput, r: seq<StrategyScore>)
    ensures IsWalkOrder(input.scores, r) <==> r == Ranked(input)
  {
    RankDescendingIsRanking(Tradeable(input.scores), ConfidenceOf);
    RankedAreCalls(input);
    if IsWalkOrder(input.scores, r) || r == Ranked(input) {
      AllCallsStay(r);
      forall k: real
        ensures CallsOfConfidence(r, k) == WithKey(r, ConfidenceOf, k)
        ensures CallsOfConfidence(input.scores, k) == WithKey(Tradeable(input.scores), ConfidenceOf, k)
      {
        CallsAreKeyed(r, k);
        CallsAreKeyed(input.scores, k);
      }
    }
    if IsWalkOrder(input.scores, r) {
      assert IsRanking(Tradeable(input.scores), r, ConfidenceOf);
      RankedIsTheRanking(input, r);
    }
  }

  // ---- The three gates ----------------------------------------------------------------------------

  function Quoted(input: ScanInput, s: StrategyScore, i: nat): real
    requires input.listedPrice(s.symbol).Some?
  {
    match input.readings(i).quote
    case Some(price) => price
    case None => input.listedPrice(s.symbol).value
  }

  function SideOf(s: StrategyScore): Side {
    match s.recommendation
    case StrongSell => Sell
    case _ => Buy
  }

  /** The whole shares that 250 buys, one at least. */
  predicate IsSize(q: int, price: real)
    requires price != 0.0
  {
    q >= 1 && q as real <= 250.0 / price < q as real + 1.0
  }

  /** The instrument is not held, or held on this side only with room for `notional` up to 750, last
      added to by the bot with 5 points less confidence and no better agreement, and not traded in the
      last half hour. */
  ghost predicate MayHold(acct: Account, trades: seq<PaperTrade>, s: StrategyScore, notional: real, now: int) {
    var open, side := OpenTrades(trades), SideOf(s);
    || (forall t | t in open :: t.symbol != s.symbol)
    || (&& Deployed(acct, InPosition(s.symbol, if side == Buy then Sell else Buy), open) <= 0.0
        && Deployed(acct, InPosition(s.symbol, side), open) + notional <= 750.0
        && (forall t | t in trades && t.symbol == s.symbol :: now - t.timestamp >= 1800000)
        && exists k: nat :: IsLatestBotTrade(trades, s.symbol, side, k) && ImprovesOn(s, trades[k]))
  }

  predicate ImprovesOn(s: StrategyScore, t: PaperTrade) {
    && t.confidence.Some? && s.confidence >= t.confidence.value + 5.0
    && t.agreement.Some? && NoWeaker(s.agreement, t.agreement.value)
  }

  /** The score may be traded at the price, with `q` shares. */
  ghost predicate MayTrade(acct: Account, trades: seq<PaperTrade>, s: StrategyScore, price: real, q: int, now: int) {
    && s.confidence >= 75.0 && s.agreement != Conflict
    && price > 0.0 && IsSize(q, price)
    && MayHold(acct, trades, s, q as real * price, now)
    && HasRoomAndCash(acct, trades, s.symbol, SideOf(s), q as real * price)
  }

  /** The score, examined as the `i`-th of the walk, may be traded with `q` shares. */
  ghost predicate MayOpen(acct: Account, trades: seq<PaperTrade>, input: ScanInput, s: StrategyScore, i: nat, q: int) {
    && input.listedPrice(s.symbol).Some?
    && MayTrade(acct, trades, s, Quoted(input, s, i), q, input.readings(i).checkedAt)
  }

  lemma AffordsOne(ratio: real, price: real)
    requires price > 0.0 && ratio * price == MAX_NOTIONAL_GBP
    ensures ratio >= 1.0 <==> price <= MAX_NOTIONAL_GBP
  {
  }

  /** A price of which 250 buys a share is one of up to 250, and what it buys is the quantity. */
  lemma SizeIsQuantity(price: real)
    requires price > 0.0
    ensures Affordable(price) <==> IsSize(QuantityFor(price), price)
    ensures forall q: int | IsSize(q, price) :: q == QuantityFor(price)
  {
    AffordsOne(MAX_NOTIONAL_GBP / price, price);
  }

  // ---- The gates of a candidate are those of its score --------------------------------------------

  lemma CandidateOfScore(input: ScanInput, i: nat)
    requires i < |Ranked(input)|
    ensures var c, s := Candidates(input)[i], Ranked(input)[i];
            && c.score == s && c.Side() == SideOf(s) && c.rank == i + 1 && c.startedAt == input.startedAt
            && c.listedPrice == input.listedPrice(s.symbol) && c.reading == input.readings(i)
            && (c.listedPrice.Some? ==> c.Price() == Quoted(input, s, i))
  {
  }

  lemma ImprovesExactly(trades: seq<PaperTrade>, s: StrategyScore, side: Side)
    ensures MoreConfident(trades, s.symbol, side, s.confidence) && AgreementKept(trades, s.symbol, side, s.agreement)
            <==> exists k: nat :: IsLatestBotTrade(trades, s.symbol, side, k) && ImprovesOn(s, trades[k])
  {
    LatestBotTradeIsLatest(trades, s.symbol, side);
    if LatestBotTrade(trades, s.symbol, side).Some? {
      var k := LatestBotTradeAt(trades, s.symbol, side);
    }
  }

  lemma PositionExactly(acct: Account, trades: seq<PaperTrade>, c: Candidate, notional: real, now: int)
    requires IndividualGate(c) && notional == c.Notional() && now == c.reading.checkedAt
    ensures PositionGate(acct, trades, c) <==> MayHold(acct, trades, c.score, notional, now)
  {
    CountedMember(acct, c.score.symbol, OpenTrades(trades));
    ImprovesExactly(trades, c.score, SideOf(c.score));
  }

  lemma RoomExactly(acct: Account, trades: seq<PaperTrade>, c: Candidate, notional: real)
    requires c.listedPrice.Some? && notional == c.Notional()
    ensures FitsPortfolio(acct, trades, Proposal(c)) <==>
            HasRoomAndCash(acct, trades, c.score.symbol, SideOf(c.score), notional)
  {
    ProposalFits(acct, trades, c);
  }

  /** The gates on a candidate, given what its shares are worth. */
  lemma GatesExactly(acct: Account, trades: seq<PaperTrade>, c: Candidate, notional: real, now: int)
    requires c.listedPrice.Some? && Affordable(c.Price())
    requires notional == QuantityFor(c.Price()) as real * c.Price() && now == c.reading.checkedAt
    ensures PortfolioGate(acct, trades, c) <==>
            && c.score.confidence >= 75.0 && c.score.agreement != Conflict
            && MayHold(acct, trades, c.score, notional, now)
            && HasRoomAndCash(acct, trades, c.score.symbol, SideOf(c.score), notional)
  {
    RoomExactly(acct, trades, c, notional);
    if IndividualGate(c) { PositionExactly(acct, trades, c, notional, now); }
  }

  /** A candidate that passes the gates may be traded, at its quantity and no other. */
  lemma GateMeansMayTrade(acct: Account, trades: seq<PaperTrade>, c: Candidate)
    requires PortfolioGate(acct, trades, c)
    ensures c.listedPrice.Some?
    ensures MayTrade(acct, trades, c.score, c.Price(), QuantityFor(c.Price()), c.reading.checkedAt)
  {
    SizeIsQuantity(c.Price());
    GatesExactly(acct, trades, c, QuantityFor(c.Price()) as real * c.Price(), c.reading.checkedAt);
  }

  lemma MayTradeMeansGate(acct: Account, trades: seq<PaperTrade>, c: Candidate, q: int)
    requires c.listedPrice.Some? && MayTrade(acct, trades, c.score, c.Price(), q, c.reading.checkedAt)
    ensures PortfolioGate(acct, trades, c) && q == QuantityFor(c.Price())
  {
    SizeIsQuantity(c.Price());
    GatesExactly(acct, trades, c, q as real * c.Price(), c.reading.checkedAt);
  }

  // ---- Which score is traded ----------------------------------------------------------------------

  ghost predicate MayOpenSome(acct: Account, trades: seq<PaperTrade>, input: ScanInput, s: StrategyScore, i: nat) {
    exists q: int :: MayOpen(acct, trades, input, s, i, q)
  }

  lemma GateExactlyMayOpen(acct: Account, trades: seq<PaperTrade>, input: ScanInput, i: nat)
    requires i < |Ranked(input)|
    ensures PortfolioGate(acct, trades, Candidates(input)[i]) <==>
            MayOpenSome(acct, trades, input, Ranked(input)[i], i)
  {
    var c, s := Candidates(input)[i], Ranked(input)[i];
    CandidateOfScore(input, i);
    if PortfolioGate(acct, trades, c) {
      GateMeansMayTrade(acct, trades, c);
      assert MayOpen(acct, trades, input, s, i, QuantityFor(c.Price()));
    }
    if MayOpenSome(acct, trades, input, s, i) {
      var q :| MayOpen(acct, trades, input, s, i, q);
      MayTradeMeansGate(acct, trades, c, q);
    }
  }

  /** The trade is that of the score: its instrument, the side it calls for, the price and size that
      were examined, stamped when the scan started. */
  predicate IsTradeOf(input: ScanInput, s: StrategyScore, i: nat, t: PaperTrade)
    requires input.listedPrice(s.symbol).Some?
  {
    && t.id == input.readings(i).tradeId && t.symbol == s.symbol
    && (t.side == Sell <==> s.recommendation == StrongSell)
    && t.entryPrice == Quoted(input, s, i) && t.timestamp == input.startedAt
    && t.status == Open && t.source == FromBot
    && t.confidence == Some(s.confidence) && t.agreement == Some(s.agreement)
    && t.closedAt == None && t.realisedPnl == None && t.realisedPnlPercent == None
  }

  lemma NoneAcceptedBefore(acct: Account, trades: seq<PaperTrade>, input: ScanInput, n: nat)
    requires n <= |Ranked(input)| && NoneAccepted(acct, trades, Candidates(input)[..n])
    ensures forall j | 0 <= j < n :: !MayOpenSome(acct, trades, input, Ranked(input)[j], j)
  {
    var cs := Candidates(input);
    forall j | 0 <= j < n
      ensures !MayOpenSome(acct, trades, input, Ranked(input)[j], j)
    {
      assert cs[..n][j] in cs[..n];
      GateExactlyMayOpen(acct, trades, input, j);
    }
  }

  /** If there is no trade, no score of the walk could be opened. */
  lemma NoTradeExactly(acct: Account, trades: seq<PaperTrade>, input: ScanInput, d: BotDecision)
    requires IsScan(acct, trades, input, d, None)
    ensures |d.candidates| == |Ranked(input)|
    ensures forall j | 0 <= j < |Ranked(input)| :: !MayOpenSome(acct, trades, input, Ranked(input)[j], j)
  {
    var cs := Candidates(input);
    assert cs[..|cs|] == cs;
    NoneAcceptedBefore(acct, trades, input, |cs|);
  }

  lemma OpenedTradeIsOfScore(acct: Account, trades: seq<PaperTrade>, input: ScanInput, i: nat, action: PositionAction,
                             p: Provenance)
    requires i < |Ranked(input)| && PortfolioGate(acct, trades, Candidates(input)[i])
    ensures var s, t := Ranked(input)[i], TradeFor(Candidates(input)[i], action, p);
            && MayOpen(acct, trades, input, s, i, t.quantity)
            && IsTradeOf(input, s, i, t) && t.positionAction == Some(action) && t.provenance == p
  {
    var c := Candidates(input)[i];
    CandidateOfScore(input, i);
    GateMeansMayTrade(acct, trades, c);
  }

  /** A scan walks the scores that are a clear call from the most confident down, equals as scored, and
      opens the first that may be traded, with the most shares that 250 buys; it opens none exactly if
      none may. A held instrument is added to, any other newly opened. */
  lemma ScanOpensFirstThatMay(acct: Account, trades: seq<PaperTrade>, input: ScanInput, d: BotDecision,
                              trade: Option<PaperTrade>, walk: seq<StrategyScore>)
    requires IsScan(acct, trades, input, d, trade) && IsWalkOrder(input.scores, walk)
    ensures |d.candidates| <= |walk|
    ensures trade.None? ==>
              && |d.candidates| == |walk|
              && forall j | 0 <= j < |walk| :: !MayOpenSome(acct, trades, input, walk[j], j)
    ensures trade.Some? ==>
              && d.candidates != []
              && var i, t := |d.candidates| - 1, trade.value;
                 && MayOpen(acct, trades, input, walk[i], i, t.quantity) && IsTradeOf(input, walk[i], i, t)
                 && (t.positionAction == Some(NewPosition) || t.positionAction == Some(AddToPosition))
                 && (t.positionAction == Some(NewPosition) <==>
                       forall x | x in OpenTrades(trades) :: x.symbol != t.symbol)
                 && forall j | 0 <= j < i :: !MayOpenSome(acct, trades, input, walk[j], j)
  {
    RankedIsTheWalkOrder(input, walk);
    if trade.None? {
      NoTradeExactly(acct, trades, input, d);
    } else {
      var i := |d.candidates| - 1;
      var c := Candidates(input)[i];
      OpenedTradeIsOfScore(acct, trades, input, i, ActionFor(acct, trades, c), d.provenance);
      CountedMember(acct, c.score.symbol, OpenTrades(trades));
      NoneAcceptedBefore(acct, trades, input, i);
    }
  }
}
