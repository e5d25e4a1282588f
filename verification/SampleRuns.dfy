/** Concrete scans and runs of them: each scan finds one candidate, two NVDA shares at 100, on a book
    that is empty or holds one such trade. */
module SampleRuns {
  import opened Trades
  import opened Ranking
  import opened DataSources
  import opened PortfolioRisk
  import opened BotRunner
  import opened WorkerSystem

  /** An account of 10000 in one sector, with so much cash to start from. */
  ghost function AccountWith(cash: real): Account {
    Account((symbol: string) => "Technology", 10000.0, cash)
  }

  const CASH := 3250.0

  ghost const ACCOUNT := AccountWith(CASH)

  predicate Opens(r: Recommendation) { r == StrongBuy || r == StrongSell }

  function Score(r: Recommendation, confidence: real): StrategyScore {
    StrategyScore("NVDA", "NVIDIA", if r == StrongSell then SellSignal else BuySignal, r, confidence,
                  StrongAgreement, "Trend", "")
  }

  function QuoteAt100(checkedAt: int): Reading {
    Reading(Some(100.0), Telemetry(false, true), checkedAt, "trade-bot-NVDA")
  }

  ghost function OneCandidate(r: Recommendation, confidence: real, startedAt: int, checkedAt: int): ScanInput {
    ScanInput([Score(r, confidence)], (symbol: string) => Some(100.0), (i: nat) => QuoteAt100(checkedAt),
              Telemetry(false, true), startedAt, "bot-1", "WORKER-1", Scheduled)
  }

  function Sole(r: Recommendation, confidence: real, startedAt: int, checkedAt: int): Candidate {
    Candidate(1, Score(r, confidence), Some(100.0), QuoteAt100(checkedAt), startedAt)
  }

  lemma SoleCandidate(r: Recommendation, confidence: real, startedAt: int, checkedAt: int)
    requires Opens(r)
    ensures Candidates(OneCandidate(r, confidence, startedAt, checkedAt)) == [Sole(r, confidence, startedAt, checkedAt)]
  {
    var input, score := OneCandidate(r, confidence, startedAt, checkedAt), Score(r, confidence);
    assert [score][..0] == [];
    assert Tradeable(input.scores) == [score];
    assert RankDescending([score], ConfidenceOf) == [score];
  }

  // ---- A scan of one accepted candidate ----------------------------------------------------------

  function SoleProvenance(input: ScanInput, c: Candidate): Provenance {
    CombineDataSourceResults(Touchpoints(input.history, [c]))
  }

  ghost function TradeOf(acct: Account, seen: seq<PaperTrade>, input: ScanInput, c: Candidate): PaperTrade
    requires PortfolioGate(acct, seen, c)
  {
    TradeFor(c, ActionFor(acct, seen, c), SoleProvenance(input, c))
  }

  ghost function EvaluationOf(acct: Account, seen: seq<PaperTrade>, c: Candidate): CandidateEvaluation
    requires PortfolioGate(acct, seen, c)
  {
    var held := Deployed(acct, InPosition(c.score.symbol, c.Side()), OpenTrades(seen));
    CandidateEvaluation(
      c.rank, c.score, c.Side(), Some(c.Price()), IndividualChecks(c.score, c.Price()), true, true,
      Some(ActionFor(acct, seen, c)), ActionChecks(acct, seen, c), Some(held), Some(held + c.Notional()),
      true, LimitChecks(acct, seen + [Proposal(c)], Proposal(c)), true, true, None)
  }

  ghost function DecisionOf(acct: Account, seen: seq<PaperTrade>, snapshot: ExposureSnapshot, input: ScanInput,
                            c: Candidate): BotDecision
    requires PortfolioGate(acct, seen, c)
  {
    BotDecision(input.decisionId, input.scanId, input.startedAt, input.trigger, [EvaluationOf(acct, seen, c)],
                snapshot, Some(c.score.symbol), true, Some(c.reading.tradeId), SoleProvenance(input, c))
  }

  lemma SoleWalk(acct: Account, seen: seq<PaperTrade>, input: ScanInput, c: Candidate)
    requires PortfolioGate(acct, seen, c)
    ensures IsWalk(acct, seen, [c], [EvaluationOf(acct, seen, c)], Some(TradeOf(acct, seen, input, c)),
                   SoleProvenance(input, c))
  {
    var e, p := EvaluationOf(acct, seen, c), SoleProvenance(input, c);
    SoleIsDescribed(acct, seen, c);
    FirstStops(acct, seen, c, e, p);
  }

  lemma SolePositionIsDescribed(acct: Account, seen: seq<PaperTrade>, c: Candidate)
    requires PortfolioGate(acct, seen, c)
    ensures DescribesPosition(acct, seen, c, EvaluationOf(acct, seen, c))
  {
  }

  lemma SolePortfolioIsDescribed(acct: Account, seen: seq<PaperTrade>, c: Candidate)
    requires PortfolioGate(acct, seen, c)
    ensures DescribesPortfolio(acct, seen, c, EvaluationOf(acct, seen, c))
  {
  }

  lemma SoleChecksPass(c: Candidate)
    requires IndividualGate(c)
    ensures AllPassed(IndividualChecks(c.score, c.Price())) && IndividualChecks(c.score, c.Price()) != []
  {
  }

  lemma SoleIsDescribed(acct: Account, seen: seq<PaperTrade>, c: Candidate)
    requires PortfolioGate(acct, seen, c)
    ensures Describes(acct, seen, c, EvaluationOf(acct, seen, c))
  {
    SoleChecksPass(c);
    SolePositionIsDescribed(acct, seen, c);
    SolePortfolioIsDescribed(acct, seen, c);
  }

  lemma FirstStops(acct: Account, seen: seq<PaperTrade>, c: Candidate, e: CandidateEvaluation, p: Provenance)
    requires Describes(acct, seen, c, e) && e.accepted && e.positionAction.Some?
    ensures IsWalk(acct, seen, [c], [e], Some(TradeFor(c, e.positionAction.value, p)), p)
  {
    assert [c][..0] == [];
    WalkStops(acct, seen, [c], 0, [], e, p);
    assert [] + [e] == [e];
  }

  lemma SoleScan(acct: Account, seen: seq<PaperTrade>, snapshot: ExposureSnapshot, input: ScanInput, c: Candidate)
    requires Candidates(input) == [c] && PortfolioGate(acct, seen, c) && IsSnapshot(acct, seen, snapshot)
    ensures IsScan(acct, seen, input, DecisionOf(acct, seen, snapshot, input, c),
                   Some(TradeOf(acct, seen, input, c)))
  {
    SoleWalk(acct, seen, input, c);
    assert [c][..1] == [c];
  }

  // ---- The two books -----------------------------------------------------------------------------

  ghost function EmptySnapshot(cash: real): ExposureSnapshot {
    ExposureSnapshot(0, 0.0, cash, 10000.0, map[], BySide(0.0, 0.0), BySide(0, 0), map[], map[])
  }

  lemma SnapshotOfNothing(cash: real)
    ensures IsSnapshot(AccountWith(cash), [], EmptySnapshot(cash))
  {
    NothingTallied(AccountWith(cash));
  }

  predicate IsSample(t: PaperTrade) {
    t.symbol == "NVDA" && t.side == Buy && t.status == Open && t.Notional() == 200.0
  }

  ghost function SampleSnapshot(cash: real): ExposureSnapshot {
    ExposureSnapshot(1, 200.0, cash - 200.0, 10000.0, map["NVDA" := 200.0], BySide(200.0, 0.0), BySide(1, 0),
                     map["Technology" := 200.0], map["Technology" := 1])
  }

  lemma SnapshotOfSample(cash: real, t: PaperTrade)
    requires IsSample(t)
    ensures IsSnapshot(AccountWith(cash), [t], SampleSnapshot(cash))
  {
    SampleTallied(cash, t);
    OneMoreOpen([], t);
    CashOneMore(AccountWith(cash), [], t);
    assert [] + [t] == [t];
    TalliedIsSnapshot(AccountWith(cash), [t], SampleSnapshot(cash));
  }

  lemma SampleTallied(cash: real, t: PaperTrade)
    requires IsSample(t)
    ensures Tallied(AccountWith(cash), [t], 200.0, map["NVDA" := 200.0], BySide(200.0, 0.0), BySide(1, 0),
                    map["Technology" := 200.0], map["Technology" := 1])
  {
    NothingTallied(AccountWith(cash));
    TalliedOneMore(AccountWith(cash), [], t, 0.0, map[], BySide(0.0, 0.0), BySide(0, 0), map[], map[]);
    assert [] + [t] == [t];
    assert map[]["NVDA" := 0.0 + t.Notional()] == map["NVDA" := 200.0];
    assert map[]["Technology" := 0.0 + t.Notional()] == map["Technology" := 200.0];
    assert map[]["Technology" := 0 + 1] == map["Technology" := 1];
  }

  /** Another 200 fits a book with at most one such trade. */
  lemma SampleFits(cash: real, seen: seq<PaperTrade>, s: ExposureSnapshot, p: PaperTrade)
    requires IsSnapshot(AccountWith(cash), seen, s) && (s == EmptySnapshot(cash) || s == SampleSnapshot(cash))
    requires p.status == Open && p.Notional() == 200.0 && s.availableCash >= 1200.0
    ensures FitsPortfolio(AccountWith(cash), seen, p)
  {
    assert CapitalAt(s.capitalBySector, "Technology") <= 200.0 && CountAt(s.countBySector, "Technology") <= 1;
    SnapshotShowsRoom(AccountWith(cash), seen, s, p.symbol, p.side, p.Notional());
    FitsExactlyWithRoom(AccountWith(cash), seen, p);
    AllOfSix(PredictedLimits(s, "Technology", p.side, p.Notional()));
  }

  lemma SoleSize(c: Candidate)
    requires c.listedPrice == Some(100.0) && c.reading.quote == Some(100.0)
    ensures c.Price() == 100.0 && QuantityFor(100.0) == 2 && c.Notional() == 200.0 && Proposal(c).Notional() == 200.0
  {
    assert 250.0 / 100.0 == 2.5;
  }

  /** On an empty book the candidate opens a new position. */
  lemma SoleOpens(cash: real, r: Recommendation, startedAt: int, checkedAt: int)
    requires Opens(r) && cash >= 1200.0
    ensures var c := Sole(r, 80.0, startedAt, checkedAt);
            PortfolioGate(AccountWith(cash), [], c) && ActionFor(AccountWith(cash), [], c) == NewPosition
  {
    var c := Sole(r, 80.0, startedAt, checkedAt);
    SoleSize(c);
    SnapshotOfNothing(cash);
    SampleFits(cash, [], EmptySnapshot(cash), Proposal(c));
  }

  ghost function FirstTrade(r: Recommendation, startedAt: int, checkedAt: int): PaperTrade
    requires Opens(r)
  {
    TradeFor(Sole(r, 80.0, startedAt, checkedAt), NewPosition,
             SoleProvenance(OneCandidate(r, 80.0, startedAt, checkedAt), Sole(r, 80.0, startedAt, checkedAt)))
  }

  ghost function FirstDecision(cash: real, r: Recommendation, startedAt: int, checkedAt: int): BotDecision
    requires Opens(r) && cash >= 1200.0
  {
    var c := Sole(r, 80.0, startedAt, checkedAt);
    SoleOpens(cash, r, startedAt, checkedAt);
    DecisionOf(AccountWith(cash), [], EmptySnapshot(cash), OneCandidate(r, 80.0, startedAt, checkedAt), c)
  }

  lemma FirstScan(cash: real, r: Recommendation, startedAt: int, checkedAt: int)
    requires Opens(r) && cash >= 1200.0
    ensures IsScan(AccountWith(cash), [], OneCandidate(r, 80.0, startedAt, checkedAt),
                   FirstDecision(cash, r, startedAt, checkedAt), Some(FirstTrade(r, startedAt, checkedAt)))
  {
    SoleOpens(cash, r, startedAt, checkedAt);
    SoleCandidate(r, 80.0, startedAt, checkedAt);
    SnapshotOfNothing(cash);
    SoleScan(AccountWith(cash), [], EmptySnapshot(cash), OneCandidate(r, 80.0, startedAt, checkedAt),
             Sole(r, 80.0, startedAt, checkedAt));
  }

  // ---- Runs of such scans ------------------------------------------------------------------------

  lemma Extend(acct: Account, delay: int, ss: seq<System>, steps: seq<Step>, s: System, step: Step)
    returns (longer: seq<System>, more: seq<Step>, s': System)
    requires IsRunWithin(acct, delay, ss, steps) && ss[|steps|] == s
    requires Enabled(acct, s, step) && InTime(delay, s, step)
    ensures IsRunWithin(acct, delay, longer, more) && more == steps + [step]
    ensures longer[|more|] == s' == After(acct, s, step)
  {
    s' := After(acct, s, step);
    RunOneMore(acct, ss, steps, step);
    longer, more := ss + [s'], steps + [step];
    forall i | 0 <= i < |more|
      ensures InTime(delay, longer[i], more[i])
    {
      assert i < |steps| ==> longer[i] == ss[i] && more[i] == steps[i];
    }
  }

  ghost function Deciding(cash: real, since: int, r: Recommendation): Phase
    requires Opens(r) && cash >= 1200.0
  {
    Decided(since, [], OneCandidate(r, 80.0, since, since), FirstDecision(cash, r, since, since),
            Some(FirstTrade(r, since, since)))
  }

  lemma ClaimAndLoad(acct: Account, delay: int, ss: seq<System>, steps: seq<Step>, s: System, w: WorkerId)
    returns (longer: seq<System>, more: seq<Step>, s': System)
    requires IsRunWithin(acct, delay, ss, steps) && ss[|steps|] == s
    requires s.book == [] && s.PhaseOf(w).Idle? && Claimable(s.lock, s.now)
    ensures IsRunWithin(acct, delay, longer, more) && longer[|more|] == s'
    ensures more == steps + [Claim(w)] + [Load(w, [])]
    ensures s' == s.(lock := Held(w, s.now), phases := s.phases[w := Loaded(s.now, [])])
  {
    longer, more, s' := Extend(acct, delay, ss, steps, s, Claim(w));
    longer, more, s' := Extend(acct, delay, longer, more, s', Load(w, []));
    assert s'.phases == s.phases[w := Loaded(s.now, [])];
  }

  lemma Decide(cash: real, delay: int, ss: seq<System>, steps: seq<Step>, s: System, w: WorkerId, r: Recommendation)
    returns (longer: seq<System>, more: seq<Step>, s': System)
    requires IsRunWithin(AccountWith(cash), delay, ss, steps) && ss[|steps|] == s
    requires s.PhaseOf(w) == Loaded(s.now, []) && Opens(r) && cash >= 1200.0
    ensures IsRunWithin(AccountWith(cash), delay, longer, more) && longer[|more|] == s'
    ensures more == steps + [FirstScanStep(cash, s, w, r)]
    ensures s' == s.(phases := s.phases[w := Deciding(cash, s.now, r)])
  {
    ScanIsEnabled(cash, s, w, r);
    longer, more, s' := Extend(AccountWith(cash), delay, ss, steps, s, FirstScanStep(cash, s, w, r));
  }

  ghost function FirstScanStep(cash: real, s: System, w: WorkerId, r: Recommendation): Step
    requires Opens(r) && cash >= 1200.0
  {
    Scan(w, OneCandidate(r, 80.0, s.now, s.now), FirstDecision(cash, r, s.now, s.now),
         Some(FirstTrade(r, s.now, s.now)))
  }

  lemma ScanIsEnabled(cash: real, s: System, w: WorkerId, r: Recommendation)
    requires s.PhaseOf(w) == Loaded(s.now, []) && Opens(r) && cash >= 1200.0
    ensures Enabled(AccountWith(cash), s, FirstScanStep(cash, s, w, r))
  {
    FirstScan(cash, r, s.now, s.now);
  }

  /** A worker claims the schedule of an empty book, loads it and decides to open its one trade. */
  lemma ClaimAndDecide(cash: real, delay: int, ss: seq<System>, steps: seq<Step>, s: System, w: WorkerId,
                       r: Recommendation)
    returns (longer: seq<System>, more: seq<Step>, s': System)
    requires IsRunWithin(AccountWith(cash), delay, ss, steps) && ss[|steps|] == s
    requires s.book == [] && s.PhaseOf(w).Idle? && Claimable(s.lock, s.now) && Opens(r) && cash >= 1200.0
    ensures IsRunWithin(AccountWith(cash), delay, longer, more) && longer[|more|] == s'
    ensures more == steps + [Claim(w)] + [Load(w, [])] + [FirstScanStep(cash, s, w, r)]
    ensures s' == s.(lock := Held(w, s.now), phases := s.phases[w := Deciding(cash, s.now, r)])
  {
    longer, more, s' := ClaimAndLoad(AccountWith(cash), delay, ss, steps, s, w);
    longer, more, s' := Decide(cash, delay, longer, more, s', w, r);
    assert s'.phases == s.phases[w := Deciding(cash, s.now, r)];
  }

  lemma DecidingWrites(cash: real, s: System, w: WorkerId, since: int, r: Recommendation)
    requires Opens(r) && cash >= 1200.0 && w in s.phases && s.phases[w] == Deciding(cash, since, r)
    ensures Enabled(AccountWith(cash), s, StoreTrade(w, Stored))
    ensures After(AccountWith(cash), s, StoreTrade(w, Stored)) ==
            s.(book := s.book + [FirstTrade(r, since, since)],
               phases := s.phases[w := TradeSettled(FirstDecision(cash, r, since, since), Some(|s.book|))])
  {
  }
}
