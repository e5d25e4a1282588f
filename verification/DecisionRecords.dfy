/** Decision Intelligence: the flat analytical records derived from a completed scan. */
module DecisionRecords {
  import opened Trades
  import opened DataSources
  import opened PortfolioRisk
  import opened BotRunner

  const DECISION_RECORD_SCHEMA_VERSION := 1

  datatype Outcome = Pending | Win | Loss | Neutral

  datatype PortfolioRiskResult = RiskPassed | RiskFailed | NotEvaluated

  datatype DecisionRecord = DecisionRecord(
    version: int,
    id: string,
    scanId: string,
    sourceDecisionId: string,
    timestamp: int,
    trigger: Trigger,
    rank: int,
    symbol: string,
    instrumentName: string,
    sector: string,
    side: Side,
    entryPrice: Option<real>,
    strategyUsed: string,
    agreement: Agreement,
    confidence: real,
    evidenceSummary: string,
    deployedCapital: real,
    availableCash: real,
    sectorExposure: real,
    totalOpenTrades: int,
    tradeOpened: bool,
    rejection: Option<Rejection>,
    positionAction: Option<PositionAction>,
    portfolioRisk: PortfolioRiskResult,
    outcome: Outcome,
    createdTradeId: Option<string>,
    realisedPnl: Option<real>,
    realisedPnlPercent: Option<real>,
    holdingMinutes: Option<int>,
    closedAt: Option<int>,
    outcomeRecordedAt: Option<int>,
    provenance: Provenance)

  // ---- Record identifiers -----------------------------------------------------------------------

  function Digit(n: nat): char
    requires n < 10
  {
    "0123456789"[n]
  }

  function Decimal(n: nat): string {
    if n < 10 then [Digit(n)] else Decimal(n / 10) + [Digit(n % 10)]
  }

  function RecordId(decisionId: string, symbol: string, rank: nat): string {
    "decision-record-" + decisionId + "-" + symbol + "-" + Decimal(rank)
  }

  /** The number that a string of decimal digits stands for. */
  function ReadDecimal(s: string): int {
    if s == "" then 0 else 10 * ReadDecimal(s[..|s| - 1]) + (s[|s| - 1] as int - '0' as int)
  }

  lemma {:induction false} DecimalReadsBack(n: nat)
    ensures ReadDecimal(Decimal(n)) == n
  {
    if n >= 10 {
      DecimalReadsBack(n / 10);
      assert (Decimal(n / 10) + [Digit(n % 10)])[..|Decimal(n / 10)|] == Decimal(n / 10);
    }
    DigitStandsFor(n % 10);
  }

  lemma DigitStandsFor(n: nat)
    requires n < 10
    ensures Digit(n) as int - '0' as int == n
  {
  }

  lemma DecimalIsInjective(m: nat, n: nat)
    requires Decimal(m) == Decimal(n)
    ensures m == n
  {
    DecimalReadsBack(m);
    DecimalReadsBack(n);
  }

  lemma {:induction false} DecimalLength(n: nat)
    ensures |Decimal(n)| >= 1 && (|Decimal(n)| == 1 <==> n < 10)
    ensures '-' !in Decimal(n)
  {
    if n >= 10 { DecimalLength(n / 10); }
  }

  /** What follows the last dash is determined. */
  lemma AfterLastDash(a: string, x: string, b: string, y: string)
    requires a + "-" + x == b + "-" + y && '-' !in x && '-' !in y
    ensures x == y
  {
    var s := a + "-" + x;
    assert s[|a|] == '-' && s[|b|] == '-';
    assert forall k | |a| < k < |s| :: s[k] == x[k - |a| - 1];
    assert forall k | |b| < k < |s| :: s[k] == y[k - |b| - 1];
    assert x == s[|a| + 1..] && y == s[|b| + 1..];
  }

  lemma RanksGiveDistinctIds(decisionId: string, s: string, m: nat, t: string, n: nat)
    requires m != n
    ensures RecordId(decisionId, s, m) != RecordId(decisionId, t, n)
  {
    if RecordId(decisionId, s, m) == RecordId(decisionId, t, n) {
      DecimalLength(m);
      DecimalLength(n);
      AfterLastDash("decision-record-" + decisionId + "-" + s, Decimal(m), "decision-record-" + decisionId + "-" + t,
                    Decimal(n));
      DecimalIsInjective(m, n);
    }
  }

  /** A decision is named after the millisecond in which its scan started. */
  function DecisionId(millis: nat): string {
    "bot-" + Decimal(millis)
  }

  /** What stands before the first dash is determined. */
  lemma BeforeFirstDash(p: string, x: string, u: string, y: string, v: string)
    requires p + x + "-" + u == p + y + "-" + v && '-' !in x && '-' !in y
    ensures x == y
  {
    var s := p + x + "-" + u;
    assert s[|p| + |x|] == '-' && s[|p| + |y|] == '-';
    assert forall k | 0 <= k < |x| :: s[|p| + k] == x[k];
    assert forall k | 0 <= k < |y| :: s[|p| + k] == y[k];
    assert x == s[|p|..|p| + |x|] && y == s[|p|..|p| + |y|];
  }

  lemma DecisionsGiveDistinctIds(a: nat, s: string, m: nat, b: nat, t: string, n: nat)
    requires a != b
    ensures RecordId(DecisionId(a), s, m) != RecordId(DecisionId(b), t, n)
  {
    if RecordId(DecisionId(a), s, m) == RecordId(DecisionId(b), t, n) {
      var p, u, v := "decision-record-" + "bot-", s + "-" + Decimal(m), t + "-" + Decimal(n);
      DecimalLength(a);
      DecimalLength(b);
      assert RecordId(DecisionId(a), s, m) == p + Decimal(a) + "-" + u;
      assert RecordId(DecisionId(b), t, n) == p + Decimal(b) + "-" + v;
      BeforeFirstDash(p, Decimal(a), u, Decimal(b), v);
      DecimalIsInjective(a, b);
    }
  }

  // ---- Records of a decision --------------------------------------------------------------------

  function RecordOf(acct: Account, d: BotDecision, e: CandidateEvaluation): DecisionRecord {
    var sector := acct.sectorOf(e.score.symbol);
    DecisionRecord(
      DECISION_RECORD_SCHEMA_VERSION, RecordId(d.id, e.score.symbol, e.rank), d.scanId, d.id, d.timestamp, d.trigger,
      e.rank,
      e.score.symbol, e.score.instrumentName, sector, e.side, e.price,
      e.score.primaryStrategy, e.score.agreement, e.score.confidence, e.score.evidence,
      d.snapshotBefore.totalCapitalDeployed, d.snapshotBefore.availableCash,
      CapitalAt(d.snapshotBefore.capitalBySector, sector), d.snapshotBefore.totalOpenTrades,
      e.accepted, e.rejection, e.positionAction,
      if !e.portfolioEvaluated then NotEvaluated else if e.portfolioPassed then RiskPassed else RiskFailed,
      Pending, if e.accepted then d.createdTradeId else None, None, None, None, None, None, d.provenance)
  }

  function BuildDecisionRecords(acct: Account, d: BotDecision): seq<DecisionRecord> {
    seq(|d.candidates|, i requires 0 <= i < |d.candidates| => RecordOf(acct, d, d.candidates[i]))
  }

  /** Exactly the opened candidate is accepted, and it is the last one walked. */
  lemma LastAlone(acct: Account, trades: seq<PaperTrade>, input: ScanInput, d: BotDecision, trade: Option<PaperTrade>,
                  i: nat)
    requires IsScan(acct, trades, input, d, trade) && i < |d.candidates|
    ensures |d.candidates| <= |Candidates(input)|
    ensures Describes(acct, trades, Candidates(input)[i], d.candidates[i])
    ensures d.candidates[i].accepted <==> trade.Some? && i == |d.candidates| - 1
  {
    var cs, n := Candidates(input), |d.candidates|;
    RecordedAt(acct, trades, cs[..n], d.candidates, i);
    assert cs[..n][i] == cs[i];
    AcceptedExactlyAtGate(acct, trades, cs[i], d.candidates[i]);
    if trade.Some? && i < n - 1 { assert cs[..n - 1][i] in cs[..n - 1]; }
  }

  lemma RecordedAt(acct: Account, trades: seq<PaperTrade>, cs: seq<Candidate>, es: seq<CandidateEvaluation>, i: nat)
    requires Recorded(acct, trades, cs, es) && i < |es|
    ensures i < |cs| && Describes(acct, trades, cs[i], es[i])
  {
  }

  lemma AcceptedExactlyAtGate(acct: Account, trades: seq<PaperTrade>, c: Candidate, e: CandidateEvaluation)
    requires Describes(acct, trades, c, e)
    ensures e.accepted <==> PortfolioGate(acct, trades, c)
  {
  }

  /** The records of one scan have distinct identifiers. */
  lemma IdsAreDistinct(acct: Account, trades: seq<PaperTrade>, input: ScanInput, d: BotDecision,
                       trade: Option<PaperTrade>, i: nat, j: nat)
    requires IsScan(acct, trades, input, d, trade) && i < j < |d.candidates|
    ensures BuildDecisionRecords(acct, d)[i].id != BuildDecisionRecords(acct, d)[j].id
  {
    var x, y := d.candidates[i], d.candidates[j];
    RankIsPosition(acct, trades, input, d, trade, i);
    RankIsPosition(acct, trades, input, d, trade, j);
    RanksGiveDistinctIds(d.id, x.score.symbol, x.rank, y.score.symbol, y.rank);
  }

  lemma RankIsPosition(acct: Account, trades: seq<PaperTrade>, input: ScanInput, d: BotDecision,
                       trade: Option<PaperTrade>, i: nat)
    requires IsScan(acct, trades, input, d, trade) && i < |d.candidates|
    ensures d.candidates[i].rank == i + 1
  {
    LastAlone(acct, trades, input, d, trade, i);
  }

  // ---- Records of a history ---------------------------------------------------------------------

  predicate DistinctIds(records: seq<DecisionRecord>) {
    forall i, j | 0 <= i < j < |records| :: records[i].id != records[j].id
  }

  // As every scan leaves it: `RankIsPosition`.
  predicate IsNumbered(d: BotDecision) {
    forall i | 0 <= i < |d.candidates| :: d.candidates[i].rank == i + 1
  }

  /** All the records of a history of decisions. */
  function RecordsOf(acct: Account, ds: seq<BotDecision>): seq<DecisionRecord> {
    if ds == [] then [] else RecordsOf(acct, ds[..|ds| - 1]) + BuildDecisionRecords(acct, ds[|ds| - 1])
  }

  lemma {:induction false} RecordComesFromDecision(acct: Account, ds: seq<BotDecision>, i: nat)
    returns (k: nat, n: nat)
    requires i < |RecordsOf(acct, ds)|
    ensures k < |ds| && n < |ds[k].candidates| && RecordsOf(acct, ds)[i] == RecordOf(acct, ds[k], ds[k].candidates[n])
  {
    var init := ds[..|ds| - 1];
    if i < |RecordsOf(acct, init)| {
      k, n := RecordComesFromDecision(acct, init, i);
    } else {
      k, n := |ds| - 1, i - |RecordsOf(acct, init)|;
    }
  }

  lemma RecordsOfTwoDecisions(acct: Account, d: BotDecision, a: nat, x: CandidateEvaluation,
                              d': BotDecision, b: nat, y: CandidateEvaluation)
    requires d.id == DecisionId(a) && d'.id == DecisionId(b) && a != b
    ensures RecordOf(acct, d, x).id != RecordOf(acct, d', y).id
  {
    DecisionsGiveDistinctIds(a, x.score.symbol, x.rank, b, y.score.symbol, y.rank);
  }

  lemma RecordsOfOneDecision(acct: Account, d: BotDecision)
    requires IsNumbered(d)
    ensures DistinctIds(BuildDecisionRecords(acct, d))
  {
    forall i, j | 0 <= i < j < |d.candidates|
      ensures BuildDecisionRecords(acct, d)[i].id != BuildDecisionRecords(acct, d)[j].id
    {
      var x, y := d.candidates[i], d.candidates[j];
      RanksGiveDistinctIds(d.id, x.score.symbol, x.rank, y.score.symbol, y.rank);
    }
  }

  lemma DistinctTogether(earlier: seq<DecisionRecord>, latest: seq<DecisionRecord>)
    requires DistinctIds(earlier) && DistinctIds(latest)
    requires forall i, j | 0 <= i < |earlier| && 0 <= j < |latest| :: earlier[i].id != latest[j].id
    ensures DistinctIds(earlier + latest)
  {
  }

  /** Each decision is numbered, and named after its own millisecond. */
  ghost predicate AreNamed(ds: seq<BotDecision>, millis: seq<nat>) {
    && |millis| == |ds|
    && (forall i, j | 0 <= i < j < |millis| :: millis[i] != millis[j])
    && forall i | 0 <= i < |ds| :: ds[i].id == DecisionId(millis[i]) && IsNumbered(ds[i])
  }

  lemma LatestDiffers(acct: Account, ds: seq<BotDecision>, millis: seq<nat>, i: nat, j: nat)
    requires AreNamed(ds, millis) && ds != []
    requires i < |RecordsOf(acct, ds[..|ds| - 1])| && j < |ds[|ds| - 1].candidates|
    ensures RecordsOf(acct, ds[..|ds| - 1])[i].id != BuildDecisionRecords(acct, ds[|ds| - 1])[j].id
  {
    var last := |ds| - 1;
    var k, n := RecordComesFromDecision(acct, ds[..last], i);
    assert ds[..last][k] == ds[k];
    RecordsOfTwoDecisions(acct, ds[k], millis[k], ds[k].candidates[n], ds[last], millis[last], ds[last].candidates[j]);
  }

  /** Scans that start in different milliseconds leave a history of records with distinct identifiers. */
  lemma {:induction false} HistoryHasDistinctIds(acct: Account, ds: seq<BotDecision>, millis: seq<nat>)
    requires AreNamed(ds, millis)
    ensures DistinctIds(RecordsOf(acct, ds))
  {
    if ds == [] {
    } else {
      var last := |ds| - 1;
      var earlier, latest := RecordsOf(acct, ds[..last]), BuildDecisionRecords(acct, ds[last]);
      HistoryHasDistinctIds(acct, ds[..last], millis[..last]);
      RecordsOfOneDecision(acct, ds[last]);
      forall i, j | 0 <= i < |earlier| && 0 <= j < |latest|
        ensures earlier[i].id != latest[j].id
      {
        LatestDiffers(acct, ds, millis, i, j);
      }
      DistinctTogether(earlier, latest);
    }
  }

  /** What the record of the `i`-th candidate tells: the gates nest, and only the opened candidate
      carries an opening action and the trade's identifier. */
  lemma RecordTellsTheGates(acct: Account, trades: seq<PaperTrade>, input: ScanInput, d: BotDecision,
                            trade: Option<PaperTrade>, i: nat)
    requires IsScan(acct, trades, input, d, trade) && i < |d.candidates|
    ensures |d.candidates| <= |Candidates(input)|
    ensures var r, c := BuildDecisionRecords(acct, d)[i], Candidates(input)[i];
            && r.outcome == Pending && r.rank == i + 1 && r.symbol == c.score.symbol
            && (r.portfolioRisk != NotEvaluated ==> r.positionAction.Some?)
            && (r.positionAction.Some? <==> IndividualGate(c))
            && (r.portfolioRisk == RiskFailed ==> r.positionAction == Some(BlockPosition))
            && (r.portfolioRisk == RiskPassed <==> r.tradeOpened)
            && (r.tradeOpened <==> r.positionAction == Some(NewPosition) || r.positionAction == Some(AddToPosition))
            && (r.tradeOpened <==> trade.Some? && i == |d.candidates| - 1)
            && r.createdTradeId == (if r.tradeOpened then Some(trade.value.id) else None)
            && (r.rejection.Some? <==> !r.tradeOpened)
  {
    LastAlone(acct, trades, input, d, trade, i);
  }

  predicate FromOutside(t: Telemetry) { !t.usedFallback && t.external }

  /** Trade, decision and records share one provenance. It is "verified" exactly when the history fetch
      and the quote fetch of every examined candidate came from outside, without fallback, and
      "fallback" exactly when one of them fell back. */
  lemma OneProvenance(acct: Account, trades: seq<PaperTrade>, input: ScanInput, d: BotDecision,
                      trade: Option<PaperTrade>)
    requires IsScan(acct, trades, input, d, trade)
    ensures forall r | r in BuildDecisionRecords(acct, d) :: r.provenance == d.provenance
    ensures trade.Some? ==> trade.value.provenance == d.provenance
    ensures |d.candidates| <= |Candidates(input)|
    ensures d.provenance == VerifiedExternalData <==>
              && FromOutside(input.history)
              && forall c | c in Candidates(input)[..|d.candidates|] && c.listedPrice.Some? ::
                   FromOutside(c.reading.telemetry)
    ensures d.provenance == FallbackSampleData <==>
              || input.history.usedFallback
              || exists c :: c in Candidates(input)[..|d.candidates|] && c.listedPrice.Some?
                             && c.reading.telemetry.usedFallback
    ensures d.provenance != Backtest
  {
    TradeHasTheProvenance(acct, trades, input, d, trade);
    TouchpointsTell(input.history, Candidates(input)[..|d.candidates|]);
  }

  lemma TradeHasTheProvenance(acct: Account, trades: seq<PaperTrade>, input: ScanInput, d: BotDecision,
                              trade: Option<PaperTrade>)
    requires IsScan(acct, trades, input, d, trade)
    ensures |d.candidates| <= |Candidates(input)|
    ensures trade.Some? ==> trade.value.provenance == d.provenance
    ensures d.provenance == CombineDataSourceResults(Touchpoints(input.history, Candidates(input)[..|d.candidates|]))
  {
  }

  lemma {:induction false} TouchpointsTell(history: Telemetry, cs: seq<Candidate>)
    ensures Touchpoints(history, cs) != []
    ensures AllExternal(Touchpoints(history, cs)) <==>
              && FromOutside(history)
              && forall c | c in cs && c.listedPrice.Some? :: FromOutside(c.reading.telemetry)
    ensures Fallback in Touchpoints(history, cs) <==>
              history.usedFallback || exists c :: c in cs && c.listedPrice.Some? && c.reading.telemetry.usedFallback
  {
    if cs == [] {
      ExternalOneMore([], ToDataSourceResult(history));
      assert [] + [ToDataSourceResult(history)] == Touchpoints(history, cs);
    } else {
      var init, last := cs[..|cs| - 1], cs[|cs| - 1];
      assert cs == init + [last];
      TouchpointsTell(history, init);
      if last.listedPrice.Some? {
        ExternalOneMore(Touchpoints(history, init), ToDataSourceResult(last.reading.telemetry));
      }
    }
  }
}
