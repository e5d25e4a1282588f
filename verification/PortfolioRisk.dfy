/** The Portfolio Risk Manager: the exposure snapshot folded from a trade list and the six limits
    checked on the figures predicted for one more trade. */
module PortfolioRisk {
  import opened Trades

  const MAX_OPEN_TRADES: nat := 5
  const MAX_CAPITAL_DEPLOYED_PERCENT := 60.0
  const MAX_SECTOR_EXPOSURE_PERCENT := 30.0
  const MAX_SECTOR_OPEN_TRADES: nat := 3
  const MIN_CASH_REMAINING_GBP := 1000.0
  const MAX_SAME_DIRECTION_TRADES: nat := 4

  datatype ExposureSnapshot = ExposureSnapshot(
    totalOpenTrades: nat,
    totalCapitalDeployed: real,
    availableCash: real,
    startingCapital: real,
    capitalByInstrument: map<string, real>,
    capitalBySide: BySide<real>,
    countBySide: BySide<nat>,
    capitalBySector: map<string, real>,
    countBySector: map<string, nat>)

  // Reading a key that was never written gives zero, as `record[key] ?? 0` does.
  function CapitalAt<K>(m: map<K, real>, k: K): real { if k in m then m[k] else 0.0 }

  function CountAt<K>(m: map<K, nat>, k: K): nat { if k in m then m[k] else 0 }

  ghost predicate InstrumentLedger(acct: Account, open: seq<PaperTrade>, capital: map<string, real>) {
    forall k: string ::
      && CapitalAt(capital, k) == Deployed(acct, InInstrument(k), open)
      && (k in capital <==> Count(acct, InInstrument(k), open) > 0)
  }

  ghost predicate SideLedger(acct: Account, open: seq<PaperTrade>, capital: BySide<real>, count: BySide<nat>) {
    && capital.buy == Deployed(acct, OnSide(Buy), open) && capital.sell == Deployed(acct, OnSide(Sell), open)
    && count.buy == Count(acct, OnSide(Buy), open) && count.sell == Count(acct, OnSide(Sell), open)
  }

  ghost predicate SectorLedger(acct: Account, open: seq<PaperTrade>, capital: map<string, real>,
                               count: map<string, nat>) {
    forall k: string ::
      && CapitalAt(capital, k) == Deployed(acct, InSector(k), open)
      && CountAt(count, k) == Count(acct, InSector(k), open)
      && (k in capital <==> Count(acct, InSector(k), open) > 0)
      && (k in count <==> k in capital)
  }

  /** What a snapshot has to say about a trade list, group by group. */
  ghost predicate IsSnapshot(acct: Account, trades: seq<PaperTrade>, s: ExposureSnapshot) {
    var open := OpenTrades(trades);
    && s.totalOpenTrades == |open|
    && s.totalCapitalDeployed == Deployed(acct, Everything, open)
    && s.availableCash == AvailableCash(acct, trades)
    && s.startingCapital == acct.startingCapital
    && InstrumentLedger(acct, open, s.capitalByInstrument)
    && SideLedger(acct, open, s.capitalBySide, s.countBySide)
    && SectorLedger(acct, open, s.capitalBySector, s.countBySector)
  }

  lemma LedgersOneMore(acct: Account, open: seq<PaperTrade>, t: PaperTrade, capital: map<string, real>,
                       bySide: BySide<real>, count: BySide<nat>)
    requires InstrumentLedger(acct, open, capital) && SideLedger(acct, open, bySide, count)
    ensures InstrumentLedger(acct, open + [t], capital[t.symbol := CapitalAt(capital, t.symbol) + t.Notional()])
    ensures SideLedger(acct, open + [t], bySide.With(t.side, bySide.At(t.side) + t.Notional()),
                       count.With(t.side, count.At(t.side) + 1))
  {
    forall g: Group
      ensures Deployed(acct, g, open + [t]) == Deployed(acct, g, open) + Share(acct, g, t)
      ensures Count(acct, g, open + [t]) == Count(acct, g, open) + Unit(acct, g, t)
    {
      OneMore(acct, g, open, t);
    }
  }

  lemma SectorLedgerOneMore(acct: Account, open: seq<PaperTrade>, t: PaperTrade, capital: map<string, real>,
                            count: map<string, nat>)
    requires SectorLedger(acct, open, capital, count)
    ensures var sector := acct.sectorOf(t.symbol);
            SectorLedger(acct, open + [t], capital[sector := CapitalAt(capital, sector) + t.Notional()],
                         count[sector := CountAt(count, sector) + 1])
  {
    forall g: Group
      ensures Deployed(acct, g, open + [t]) == Deployed(acct, g, open) + Share(acct, g, t)
      ensures Count(acct, g, open + [t]) == Count(acct, g, open) + Unit(acct, g, t)
    {
      OneMore(acct, g, open, t);
    }
  }

  /** All running totals agree with the trades folded so far. */
  ghost predicate Tallied(acct: Account, open: seq<PaperTrade>, total: real, byInstrument: map<string, real>,
                          bySide: BySide<real>, sideCount: BySide<nat>, bySector: map<string, real>,
                          sectorCount: map<string, nat>)
  {
    && total == Deployed(acct, Everything, open)
    && InstrumentLedger(acct, open, byInstrument)
    && SideLedger(acct, open, bySide, sideCount)
    && SectorLedger(acct, open, bySector, sectorCount)
  }

  lemma NothingTallied(acct: Account)
    ensures Tallied(acct, [], 0.0, map[], BySide(0.0, 0.0), BySide(0, 0), map[], map[])
  {
  }

  lemma TalliedOneMore(acct: Account, open: seq<PaperTrade>, t: PaperTrade, total: real,
                       byInstrument: map<string, real>,
                       bySide: BySide<real>, sideCount: BySide<nat>, bySector: map<string, real>,
                       sectorCount: map<string, nat>)
    requires Tallied(acct, open, total, byInstrument, bySide, sideCount, bySector, sectorCount)
    ensures var sector := acct.sectorOf(t.symbol);
            Tallied(acct, open + [t], total + t.Notional(),
                    byInstrument[t.symbol := CapitalAt(byInstrument, t.symbol) + t.Notional()],
                    bySide.With(t.side, bySide.At(t.side) + t.Notional()),
                    sideCount.With(t.side, sideCount.At(t.side) + 1),
                    bySector[sector := CapitalAt(bySector, sector) + t.Notional()],
                    sectorCount[sector := CountAt(sectorCount, sector) + 1])
  {
    OneMore(acct, Everything, open, t);
    LedgersOneMore(acct, open, t, byInstrument, bySide, sideCount);
    SectorLedgerOneMore(acct, open, t, bySector, sectorCount);
  }

  method BuildExposureSnapshot(acct: Account, trades: seq<PaperTrade>) returns (s: ExposureSnapshot)
    ensures IsSnapshot(acct, trades, s)
  {
    var openTrades := OpenTrades(trades);
    var closedTrades := ClosedTrades(trades);
    var capitalByInstrument: map<string, real> := map[];
    var capitalBySide: BySide<real> := BySide(0.0, 0.0);
    var countBySide: BySide<nat> := BySide(0, 0);
    var capitalBySector: map<string, real> := map[];
    var countBySector: map<string, nat> := map[];
    var totalCapitalDeployed := 0.0;

    NothingTallied(acct);
    for i := 0 to |openTrades|
      invariant Tallied(acct, openTrades[..i], totalCapitalDeployed, capitalByInstrument, capitalBySide, countBySide,
                        capitalBySector, countBySector)
    {
      var trade := openTrades[i];
      TalliedOneMore(acct, openTrades[..i], trade, totalCapitalDeployed, capitalByInstrument, capitalBySide,
                     countBySide, capitalBySector, countBySector);
      assert openTrades[..i + 1] == openTrades[..i] + [trade];
      var notional := trade.Notional();
      totalCapitalDeployed := totalCapitalDeployed + notional;
      capitalByInstrument :=
        capitalByInstrument[trade.symbol := CapitalAt(capitalByInstrument, trade.symbol) + notional];
      capitalBySide := capitalBySide.With(trade.side, capitalBySide.At(trade.side) + notional);
      countBySide := countBySide.With(trade.side, countBySide.At(trade.side) + 1);
      var sector := acct.sectorOf(trade.symbol);
      capitalBySector := capitalBySector[sector := CapitalAt(capitalBySector, sector) + notional];
      countBySector := countBySector[sector := CountAt(countBySector, sector) + 1];
    }
    assert openTrades[..|openTrades|] == openTrades;
    var realisedPnl := Realised(closedTrades);
    s := ExposureSnapshot(
      |openTrades|, totalCapitalDeployed, acct.startingCash - totalCapitalDeployed + realisedPnl, acct.startingCapital,
      capitalByInstrument, capitalBySide, countBySide, capitalBySector, countBySector);
    TalliedIsSnapshot(acct, trades, s);
  }

  lemma TalliedIsSnapshot(acct: Account, trades: seq<PaperTrade>, s: ExposureSnapshot)
    requires Tallied(acct, OpenTrades(trades), s.totalCapitalDeployed, s.capitalByInstrument, s.capitalBySide,
                     s.countBySide, s.capitalBySector, s.countBySector)
    requires s.totalOpenTrades == |OpenTrades(trades)| && s.startingCapital == acct.startingCapital
    requires s.availableCash == acct.startingCash - s.totalCapitalDeployed + Realised(ClosedTrades(trades))
    ensures IsSnapshot(acct, trades, s)
  {
  }

  // ---- Conservation -----------------------------------------------------------------------------

  function SumDeployed(acct: Account, gs: seq<Group>, open: seq<PaperTrade>): real {
    if gs == [] then 0.0
    else SumDeployed(acct, gs[..|gs| - 1], open) + Deployed(acct, gs[|gs| - 1], open)
  }

  function SumCount(acct: Account, gs: seq<Group>, open: seq<PaperTrade>): nat {
    if gs == [] then 0
    else SumCount(acct, gs[..|gs| - 1], open) + Count(acct, gs[|gs| - 1], open)
  }

  predicate InNone(acct: Account, gs: seq<Group>, t: PaperTrade) {
    forall i | 0 <= i < |gs| :: !InGroup(acct, gs[i], t)
  }

  predicate InExactlyOne(acct: Account, gs: seq<Group>, t: PaperTrade) {
    exists i | 0 <= i < |gs| ::
      && InGroup(acct, gs[i], t)
      && forall j | 0 <= j < |gs| && j != i :: !InGroup(acct, gs[j], t)
  }

  lemma {:induction false} SumsOneMore(acct: Account, gs: seq<Group>, open: seq<PaperTrade>, t: PaperTrade)
    requires InNone(acct, gs, t) || InExactlyOne(acct, gs, t)
    ensures SumDeployed(acct, gs, open + [t]) ==
            SumDeployed(acct, gs, open) + (if InNone(acct, gs, t) then 0.0 else t.Notional())
    ensures SumCount(acct, gs, open + [t]) == SumCount(acct, gs, open) + (if InNone(acct, gs, t) then 0 else 1)
  {
    if gs == [] {
    } else {
      var init, last := gs[..|gs| - 1], gs[|gs| - 1];
      if InGroup(acct, last, t) {
        assert gs[|gs| - 1] == last;
        assert InNone(acct, init, t);
      } else if !InNone(acct, gs, t) {
        var i :| 0 <= i < |gs| && InGroup(acct, gs[i], t) &&
          forall j | 0 <= j < |gs| && j != i :: !InGroup(acct, gs[j], t);
        assert InGroup(acct, init[i], t);
        assert InExactlyOne(acct, init, t);
      }
      SumsOneMore(acct, init, open, t);
      OneMore(acct, last, open, t);
    }
  }

  lemma {:induction false} NothingDeployed(acct: Account, gs: seq<Group>)
    ensures SumDeployed(acct, gs, []) == 0.0 && SumCount(acct, gs, []) == 0
  {
    if gs == [] {
    } else {
      NothingDeployed(acct, gs[..|gs| - 1]);
    }
  }

  /** Any family of groups that puts every open trade in exactly one of them accounts for all the
      capital and all the trades. */
  lemma {:induction false} PartitionsConserve(acct: Account, gs: seq<Group>, open: seq<PaperTrade>)
    requires forall t | t in open :: InExactlyOne(acct, gs, t)
    ensures SumDeployed(acct, gs, open) == Deployed(acct, Everything, open)
    ensures SumCount(acct, gs, open) == |open|
  {
    if open == [] {
      NothingDeployed(acct, gs);
    } else {
      var init, last := open[..|open| - 1], open[|open| - 1];
      PartitionsConserve(acct, gs, init);
      assert open == init + [last];
      assert InExactlyOne(acct, gs, last);
      SumsOneMore(acct, gs, init, last);
      OneMore(acct, Everything, init, last);
    }
  }

  function SumCapital<K>(m: map<K, real>, ks: seq<K>): real {
    if ks == [] then 0.0 else SumCapital(m, ks[..|ks| - 1]) + CapitalAt(m, ks[|ks| - 1])
  }

  function SumCounts<K>(m: map<K, nat>, ks: seq<K>): nat {
    if ks == [] then 0 else SumCounts(m, ks[..|ks| - 1]) + CountAt(m, ks[|ks| - 1])
  }

  /** `ks` lists the keys of a ledger, each once, in any order. */
  ghost predicate Enumerates<K(!new), V>(ks: seq<K>, m: map<K, V>) {
    && (forall k :: k in ks <==> k in m)
    && (forall i, j | 0 <= i < j < |ks| :: ks[i] != ks[j])
  }

  lemma {:induction false} SectorSums(acct: Account, open: seq<PaperTrade>, capital: map<string, real>,
                                      count: map<string, nat>, ks: seq<string>)
    requires SectorLedger(acct, open, capital, count)
    ensures SumCapital(capital, ks) == SumDeployed(acct, SectorGroups(ks), open)
    ensures SumCounts(count, ks) == SumCount(acct, SectorGroups(ks), open)
  {
    if ks == [] {
    } else {
      SectorSums(acct, open, capital, count, ks[..|ks| - 1]);
      assert SectorGroups(ks)[..|ks| - 1] == SectorGroups(ks[..|ks| - 1]);
    }
  }

  function SectorGroups(ks: seq<string>): seq<Group> { seq(|ks|, i requires 0 <= i < |ks| => InSector(ks[i])) }

  lemma {:induction false} InstrumentSums(acct: Account, open: seq<PaperTrade>, capital: map<string, real>,
                                          ks: seq<string>)
    requires InstrumentLedger(acct, open, capital)
    ensures SumCapital(capital, ks) == SumDeployed(acct, InstrumentGroups(ks), open)
  {
    if ks == [] {
    } else {
      InstrumentSums(acct, open, capital, ks[..|ks| - 1]);
      assert InstrumentGroups(ks)[..|ks| - 1] == InstrumentGroups(ks[..|ks| - 1]);
    }
  }

  function InstrumentGroups(ks: seq<string>): seq<Group> { seq(|ks|, i requires 0 <= i < |ks| => InInstrument(ks[i])) }

  lemma {:induction false} MemberIsCounted(acct: Account, g: Group, open: seq<PaperTrade>, t: PaperTrade)
    requires t in open && InGroup(acct, g, t)
    ensures Count(acct, g, open) > 0
  {
    if open[|open| - 1] != t {
      assert t in open[..|open| - 1];
      MemberIsCounted(acct, g, open[..|open| - 1], t);
    }
  }

  lemma SectorListedOnce(acct: Account, ks: seq<string>, t: PaperTrade)
    requires acct.sectorOf(t.symbol) in ks && forall i, j | 0 <= i < j < |ks| :: ks[i] != ks[j]
    ensures InExactlyOne(acct, SectorGroups(ks), t)
  {
    var i :| 0 <= i < |ks| && ks[i] == acct.sectorOf(t.symbol);
    var gs := SectorGroups(ks);
    assert InGroup(acct, gs[i], t);
    forall j | 0 <= j < |gs| && j != i ensures !InGroup(acct, gs[j], t) { assert ks[j] != ks[i]; }
  }

  lemma InstrumentListedOnce(acct: Account, ks: seq<string>, t: PaperTrade)
    requires t.symbol in ks && forall i, j | 0 <= i < j < |ks| :: ks[i] != ks[j]
    ensures InExactlyOne(acct, InstrumentGroups(ks), t)
  {
    var i :| 0 <= i < |ks| && ks[i] == t.symbol;
    var gs := InstrumentGroups(ks);
    assert InGroup(acct, gs[i], t);
    forall j | 0 <= j < |gs| && j != i ensures !InGroup(acct, gs[j], t) { assert ks[j] != ks[i]; }
  }

  /** Conservation: summed over its own keys, every ledger of a snapshot gives the whole book. */
  lemma SnapshotConserves(acct: Account, trades: seq<PaperTrade>, s: ExposureSnapshot, sectors: seq<string>,
                          counted: seq<string>, instruments: seq<string>)
    requires IsSnapshot(acct, trades, s)
    requires Enumerates(sectors, s.capitalBySector) && Enumerates(counted, s.countBySector)
    requires Enumerates(instruments, s.capitalByInstrument)
    ensures SumCapital(s.capitalBySector, sectors) == s.totalCapitalDeployed
    ensures SumCounts(s.countBySector, counted) == s.totalOpenTrades
    ensures SumCapital(s.capitalByInstrument, instruments) == s.totalCapitalDeployed
    ensures s.capitalBySide.buy + s.capitalBySide.sell == s.totalCapitalDeployed
    ensures s.countBySide.buy + s.countBySide.sell == s.totalOpenTrades
    ensures s.availableCash + s.totalCapitalDeployed == acct.startingCash + Realised(ClosedTrades(trades))
  {
    var open := OpenTrades(trades);
    SectorsConserve(acct, open, s.capitalBySector, s.countBySector, sectors);
    SectorsConserve(acct, open, s.capitalBySector, s.countBySector, counted);
    InstrumentsConserve(acct, open, s.capitalByInstrument, instruments);
    SidesConserve(acct, open);
  }

  lemma SectorsConserve(acct: Account, open: seq<PaperTrade>, capital: map<string, real>, count: map<string, nat>,
                        ks: seq<string>)
    requires SectorLedger(acct, open, capital, count) && Enumerates(ks, capital)
    ensures SumCapital(capital, ks) == Deployed(acct, Everything, open)
    ensures SumCounts(count, ks) == |open|
  {
    forall t | t in open
      ensures InExactlyOne(acct, SectorGroups(ks), t)
    {
      MemberIsCounted(acct, InSector(acct.sectorOf(t.symbol)), open, t);
      SectorListedOnce(acct, ks, t);
    }
    PartitionsConserve(acct, SectorGroups(ks), open);
    SectorSums(acct, open, capital, count, ks);
  }

  lemma InstrumentsConserve(acct: Account, open: seq<PaperTrade>, capital: map<string, real>, ks: seq<string>)
    requires InstrumentLedger(acct, open, capital) && Enumerates(ks, capital)
    ensures SumCapital(capital, ks) == Deployed(acct, Everything, open)
  {
    forall t | t in open
      ensures InExactlyOne(acct, InstrumentGroups(ks), t)
    {
      MemberIsCounted(acct, InInstrument(t.symbol), open, t);
      InstrumentListedOnce(acct, ks, t);
    }
    PartitionsConserve(acct, InstrumentGroups(ks), open);
    InstrumentSums(acct, open, capital, ks);
  }

  lemma {:induction false} SidesConserve(acct: Account, open: seq<PaperTrade>)
    ensures Deployed(acct, OnSide(Buy), open) + Deployed(acct, OnSide(Sell), open) == Deployed(acct, Everything, open)
    ensures Count(acct, OnSide(Buy), open) + Count(acct, OnSide(Sell), open) == |open|
  {
    if open == [] {
    } else {
      SidesConserve(acct, open[..|open| - 1]);
    }
  }

  // ---- The six limits ---------------------------------------------------------------------------

  /** The six limits, read off a trade list that already holds the new trade `t`. */
  function LimitChecks(acct: Account, after: seq<PaperTrade>, t: PaperTrade): seq<RiskCheck> {
    var open := OpenTrades(after);
    var sector := InSector(acct.sectorOf(t.symbol));
    [ RiskCheck(MaxOpenTrades, |open| <= 5),
      RiskCheck(MaxCapitalDeployed, Deployed(acct, Everything, open) <= 0.6 * acct.startingCapital),
      RiskCheck(MaxSectorExposure, Deployed(acct, sector, open) <= 0.3 * acct.startingCapital),
      RiskCheck(MaxOpenTradesPerSector, Count(acct, sector, open) <= 3),
      RiskCheck(MinimumCashRemaining, AvailableCash(acct, after) >= 1000.0),
      RiskCheck(MaxSameDirectionTrades, Count(acct, OnSide(t.side), open) <= 4) ]
  }

  lemma Percentages(capital: real)
    ensures MAX_CAPITAL_DEPLOYED_PERCENT / 100.0 * capital == 0.6 * capital
    ensures MAX_SECTOR_EXPOSURE_PERCENT / 100.0 * capital == 0.3 * capital
  {
  }

  /** The open trades leave room for one more under the portfolio-wide limits. */
  predicate HasRoom(acct: Account, open: seq<PaperTrade>, symbol: string, side: Side, notional: real) {
    var sector := InSector(acct.sectorOf(symbol));
    && |open| <= 4
    && Deployed(acct, Everything, open) + notional <= 0.6 * acct.startingCapital
    && Deployed(acct, sector, open) + notional <= 0.3 * acct.startingCapital
    && Count(acct, sector, open) <= 2
    && Count(acct, OnSide(side), open) <= 3
  }

  /** And so does the cash: 1000 stay. */
  predicate HasRoomAndCash(acct: Account, trades: seq<PaperTrade>, symbol: string, side: Side, notional: real) {
    HasRoom(acct, OpenTrades(trades), symbol, side, notional) && AvailableCash(acct, trades) - notional >= 1000.0
  }

  predicate FitsPortfolio(acct: Account, trades: seq<PaperTrade>, t: PaperTrade) {
    AllPassed(LimitChecks(acct, trades + [t], t))
  }

  /** `t` is a trade the candidate would open. */
  predicate Realises(t: PaperTrade, symbol: string, side: Side, notional: real) {
    t.status == Open && t.symbol == symbol && t.side == side && t.Notional() == notional
  }

  /** The checks are made on predicted figures; the prediction is what the trade list would really
      show once the trade is on it. */
  method EvaluatePortfolioRisk(acct: Account, snapshot: ExposureSnapshot, symbol: string, side: Side, notional: real)
    returns (passed: bool, checks: seq<RiskCheck>)
    ensures forall trades, t | IsSnapshot(acct, trades, snapshot) && Realises(t, symbol, side, notional) ::
              && checks == LimitChecks(acct, trades + [t], t)
              && (passed <==> HasRoomAndCash(acct, trades, symbol, side, notional))
  {
    var sector := acct.sectorOf(symbol);
    checks := [];
    Percentages(snapshot.startingCapital);

    var openTradesAfter := snapshot.totalOpenTrades + 1;
    checks := checks + [RiskCheck(MaxOpenTrades, openTradesAfter <= MAX_OPEN_TRADES)];

    var capitalLimit := MAX_CAPITAL_DEPLOYED_PERCENT / 100.0 * snapshot.startingCapital;
    var capitalDeployedAfter := snapshot.totalCapitalDeployed + notional;
    checks := checks + [RiskCheck(MaxCapitalDeployed, capitalDeployedAfter <= capitalLimit)];

    var sectorLimit := MAX_SECTOR_EXPOSURE_PERCENT / 100.0 * snapshot.startingCapital;
    var sectorCapitalAfter := CapitalAt(snapshot.capitalBySector, sector) + notional;
    checks := checks + [RiskCheck(MaxSectorExposure, sectorCapitalAfter <= sectorLimit)];

    var sectorCountAfter := CountAt(snapshot.countBySector, sector) + 1;
    checks := checks + [RiskCheck(MaxOpenTradesPerSector, sectorCountAfter <= MAX_SECTOR_OPEN_TRADES)];

    var cashAfter := snapshot.availableCash - notional;
    checks := checks + [RiskCheck(MinimumCashRemaining, cashAfter >= MIN_CASH_REMAINING_GBP)];

    var sideCountAfter := snapshot.countBySide.At(side) + 1;
    checks := checks + [RiskCheck(MaxSameDirectionTrades, sideCountAfter <= MAX_SAME_DIRECTION_TRADES)];

    passed := AllPassed(checks);

    assert checks == PredictedLimits(snapshot, sector, side, notional);
    forall trades, t | IsSnapshot(acct, trades, snapshot) && Realises(t, symbol, side, notional)
      ensures checks == LimitChecks(acct, trades + [t], t)
      ensures passed <==> HasRoomAndCash(acct, trades, symbol, side, notional)
    {
      PredictedExactly(acct, trades, snapshot, t);
    }
  }

  lemma FiguresOneMore(acct: Account, trades: seq<PaperTrade>, t: PaperTrade)
    requires t.status == Open
    ensures var open, after, sector := OpenTrades(trades), OpenTrades(trades + [t]), acct.sectorOf(t.symbol);
            && |after| == |open| + 1
            && Deployed(acct, Everything, after) == Deployed(acct, Everything, open) + t.Notional()
            && Deployed(acct, InSector(sector), after) == Deployed(acct, InSector(sector), open) + t.Notional()
            && Count(acct, InSector(sector), after) == Count(acct, InSector(sector), open) + 1
            && AvailableCash(acct, trades + [t]) == AvailableCash(acct, trades) - t.Notional()
            && Count(acct, OnSide(t.side), after) == Count(acct, OnSide(t.side), open) + 1
  {
    var open := OpenTrades(trades);
    OneMoreOpen(trades, t);
    OneMore(acct, Everything, open, t);
    OneMore(acct, InSector(acct.sectorOf(t.symbol)), open, t);
    OneMore(acct, OnSide(t.side), open, t);
  }

  /** The six "after" figures computed from a snapshot are the ones the longer list shows. */
  lemma PredictionHolds(acct: Account, trades: seq<PaperTrade>, s: ExposureSnapshot, t: PaperTrade)
    requires IsSnapshot(acct, trades, s) && t.status == Open
    ensures var after := OpenTrades(trades + [t]);
            var sector := acct.sectorOf(t.symbol);
            && |after| == s.totalOpenTrades + 1
            && Deployed(acct, Everything, after) == s.totalCapitalDeployed + t.Notional()
            && Deployed(acct, InSector(sector), after) == CapitalAt(s.capitalBySector, sector) + t.Notional()
            && Count(acct, InSector(sector), after) == CountAt(s.countBySector, sector) + 1
            && AvailableCash(acct, trades + [t]) == s.availableCash - t.Notional()
            && Count(acct, OnSide(t.side), after) == s.countBySide.At(t.side) + 1
  {
    FiguresOneMore(acct, trades, t);
  }

  lemma AllOfSix(checks: seq<RiskCheck>)
    requires |checks| == 6
    ensures AllPassed(checks) <==>
            && checks[0].passed && checks[1].passed && checks[2].passed
            && checks[3].passed && checks[4].passed && checks[5].passed
  {
  }

  /** The six limits hold of the longer list exactly if the shorter one has room for the trade and
      leaves 1000 of cash. */
  lemma FitsExactlyWithRoom(acct: Account, trades: seq<PaperTrade>, t: PaperTrade)
    requires t.status == Open
    ensures FitsPortfolio(acct, trades, t) <==> HasRoomAndCash(acct, trades, t.symbol, t.side, t.Notional())
  {
    LimitsBefore(acct, trades, t);
    AllOfSix(RoomChecks(acct, trades, t.symbol, t.side, t.Notional()));
  }

  /** The six limits on the list before the trade. */
  function RoomChecks(acct: Account, trades: seq<PaperTrade>, symbol: string, side: Side,
                      notional: real): seq<RiskCheck>
  {
    var open := OpenTrades(trades);
    var sector := InSector(acct.sectorOf(symbol));
    [ RiskCheck(MaxOpenTrades, |open| <= 4),
      RiskCheck(MaxCapitalDeployed, Deployed(acct, Everything, open) + notional <= 0.6 * acct.startingCapital),
      RiskCheck(MaxSectorExposure, Deployed(acct, sector, open) + notional <= 0.3 * acct.startingCapital),
      RiskCheck(MaxOpenTradesPerSector, Count(acct, sector, open) <= 2),
      RiskCheck(MinimumCashRemaining, AvailableCash(acct, trades) - notional >= 1000.0),
      RiskCheck(MaxSameDirectionTrades, Count(acct, OnSide(side), open) <= 3) ]
  }

  lemma LimitsBefore(acct: Account, trades: seq<PaperTrade>, t: PaperTrade)
    requires t.status == Open
    ensures LimitChecks(acct, trades + [t], t) == RoomChecks(acct, trades, t.symbol, t.side, t.Notional())
  {
    FiguresOneMore(acct, trades, t);
  }

  /** The six limits on what a snapshot shows before the trade. */
  function PredictedLimits(s: ExposureSnapshot, sector: string, side: Side, notional: real): seq<RiskCheck> {
    [ RiskCheck(MaxOpenTrades, s.totalOpenTrades <= 4),
      RiskCheck(MaxCapitalDeployed, s.totalCapitalDeployed + notional <= 0.6 * s.startingCapital),
      RiskCheck(MaxSectorExposure, CapitalAt(s.capitalBySector, sector) + notional <= 0.3 * s.startingCapital),
      RiskCheck(MaxOpenTradesPerSector, CountAt(s.countBySector, sector) <= 2),
      RiskCheck(MinimumCashRemaining, s.availableCash - notional >= 1000.0),
      RiskCheck(MaxSameDirectionTrades, s.countBySide.At(side) <= 3) ]
  }

  lemma SnapshotShowsRoom(acct: Account, trades: seq<PaperTrade>, s: ExposureSnapshot, symbol: string, side: Side,
                          notional: real)
    requires IsSnapshot(acct, trades, s)
    ensures PredictedLimits(s, acct.sectorOf(symbol), side, notional) ==
            RoomChecks(acct, trades, symbol, side, notional)
  {
  }

  lemma PredictedExactly(acct: Account, trades: seq<PaperTrade>, s: ExposureSnapshot, t: PaperTrade)
    requires IsSnapshot(acct, trades, s) && t.status == Open
    ensures var predicted := PredictedLimits(s, acct.sectorOf(t.symbol), t.side, t.Notional());
            && predicted == LimitChecks(acct, trades + [t], t)
            && (AllPassed(predicted) <==> HasRoomAndCash(acct, trades, t.symbol, t.side, t.Notional()))
  {
    SnapshotShowsRoom(acct, trades, s, t.symbol, t.side, t.Notional());
    LimitsBefore(acct, trades, t);
    FitsExactlyWithRoom(acct, trades, t);
  }
}
