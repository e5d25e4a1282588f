/** What an accepted candidate does to the book: every limit and the confidence ladder survive both
    its trade and the closing of any trades in between. */
module BookLimits {
  import opened Trades
  import opened PortfolioRisk
  import opened PositionManager
  import opened BotRunner

  // ---- The properties of a book -----------------------------------------------------------------

  predicate OneSided(acct: Account, open: seq<PaperTrade>, symbol: string) {
    Count(acct, InPosition(symbol, Buy), open) == 0 || Count(acct, InPosition(symbol, Sell), open) == 0
  }

  ghost predicate WithinLimits(acct: Account, open: seq<PaperTrade>) {
    && |open| <= 5
    && Deployed(acct, Everything, open) <= 0.6 * acct.startingCapital
    && (forall s: string ::
          && Deployed(acct, InSector(s), open) <= 0.3 * acct.startingCapital
          && Count(acct, InSector(s), open) <= 3)
    && (forall d: Side :: Count(acct, OnSide(d), open) <= 4)
    && (forall y: string :: Deployed(acct, InInstrument(y), open) <= 750.0 && OneSided(acct, open, y))
  }

  predicate IsBotTrade(t: PaperTrade) {
    && t.source == FromBot && t.confidence.Some? && t.agreement.Some?
    && t.confidence.value >= 75.0
    && 125.0 < t.Notional() <= 250.0
  }

  ghost predicate BotBook(ts: seq<PaperTrade>) {
    forall t | t in ts :: IsBotTrade(t)
  }

  /** `y` was placed later than `x`, at least 5 points more confident and no weaker in agreement. */
  predicate Climbs(x: PaperTrade, y: PaperTrade) {
    && x.confidence.Some? && y.confidence.Some? && x.agreement.Some? && y.agreement.Some?
    && x.timestamp < y.timestamp
    && y.confidence.value >= x.confidence.value + 5.0
    && NoWeaker(y.agreement.value, x.agreement.value)
  }

  /** The open trades of one instrument form a ladder in time. */
  ghost predicate Ladder(open: multiset<PaperTrade>) {
    forall x, y | x in open && y in open && x.symbol == y.symbol ::
      (x == y && open[x] == 1) || Climbs(x, y) || Climbs(y, x)
  }

  ghost predicate LimitedBook(acct: Account, book: seq<PaperTrade>) {
    BotBook(book) && WithinLimits(acct, OpenTrades(book))
  }

  /** Reading the ladder off the list: any two open trades of an instrument are a rung apart. */
  lemma LadderByPosition(open: seq<PaperTrade>, i: nat, j: nat)
    requires Ladder(multiset(open)) && i < j < |open| && open[i].symbol == open[j].symbol
    ensures Climbs(open[i], open[j]) || Climbs(open[j], open[i])
  {
    var x := open[i];
    assert open == open[..j] + open[j..];
    assert multiset(open) == multiset(open[..j]) + multiset(open[j..]);
    assert open[..j][i] == x && open[j..][0] == open[j];
    assert x in multiset(open) && open[j] in multiset(open);
    if x == open[j] {
      assert multiset(open[..j])[x] >= 1 && multiset(open[j..])[x] >= 1;
    }
  }

  ghost predicate OneInstrument(m: multiset<PaperTrade>, symbol: string, least: real) {
    forall t | t in m :: t.symbol == symbol && t.confidence.Some? && t.confidence.value >= least
  }

  /** A ladder has a top rung. */
  lemma {:induction false} LadderTop(m: multiset<PaperTrade>, symbol: string, least: real) returns (top: PaperTrade)
    requires Ladder(m) && OneInstrument(m, symbol, least) && |m| > 0
    ensures top in m && m[top] == 1 && forall t | t in m && t != top :: Climbs(t, top)
    decreases |m|
  {
    var t :| t in m;
    top := t;
    if |m| > 1 {
      var rest := m - multiset{t};
      assert t !in rest;
      LadderSurvivesCloses(rest, m);
      var top' := LadderTop(rest, symbol, least);
      assert Climbs(t, top') || Climbs(top', t);
      if Climbs(t, top') { top := top'; }
    } else {
      assert |m - multiset{t}| == 0;
      assert m == multiset{t} + (m - multiset{t}) == multiset{t};
    }
  }

  /** Each rung adds at least 5 points. */
  lemma {:induction false} LadderHeight(m: multiset<PaperTrade>, symbol: string, least: real) returns (top: PaperTrade)
    requires Ladder(m) && OneInstrument(m, symbol, least) && |m| > 0
    ensures top in m && top.confidence.value >= least + (|m| - 1) as real * 5.0
    decreases |m|
  {
    top := LadderTop(m, symbol, least);
    if |m| > 1 {
      var rest := m - multiset{top};
      LadderSurvivesCloses(rest, m);
      var below := LadderHeight(rest, symbol, least);
      assert Climbs(below, top);
    }
  }

  /** With confidence between 75 and 100 the ladder alone allows at most 6 trades of an instrument. */
  lemma LadderLimitsCount(m: multiset<PaperTrade>, symbol: string)
    requires Ladder(m) && OneInstrument(m, symbol, 75.0)
    requires forall t | t in m :: t.confidence.value <= 100.0
    ensures |m| <= 6
  {
    if |m| > 0 { var top := LadderHeight(m, symbol, 75.0); }
  }

  function OfInstrument(open: seq<PaperTrade>, symbol: string): seq<PaperTrade> {
    if open == [] then []
    else
      var init, last := open[..|open| - 1], open[|open| - 1];
      OfInstrument(init, symbol) + (if last.symbol == symbol then [last] else [])
  }

  lemma {:induction false} InstrumentTrades(acct: Account, open: seq<PaperTrade>, symbol: string)
    ensures |OfInstrument(open, symbol)| == Count(acct, InInstrument(symbol), open)
    ensures multiset(OfInstrument(open, symbol)) <= multiset(open)
    ensures forall t | t in OfInstrument(open, symbol) :: t.symbol == symbol
  {
    if open == [] {
    } else {
      var init, last := open[..|open| - 1], open[|open| - 1];
      InstrumentTrades(acct, init, symbol);
      assert open == init + [last];
    }
  }

  /** In a book of bot trades that is a ladder, an instrument with `k` open trades has one with a
      confidence of at least 75 + 5 (k - 1). */
  lemma LadderHeightOfInstrument(acct: Account, open: seq<PaperTrade>, symbol: string) returns (top: PaperTrade)
    requires BotBook(open) && Ladder(multiset(open)) && Count(acct, InInstrument(symbol), open) > 0
    ensures top in open && top.symbol == symbol && top.confidence.Some?
    ensures top.confidence.value >= 75.0 + (Count(acct, InInstrument(symbol), open) - 1) as real * 5.0
  {
    var mine := OfInstrument(open, symbol);
    InstrumentTrades(acct, open, symbol);
    LadderSurvivesCloses(multiset(mine), multiset(open));
    forall t | t in mine
      ensures t in open
    {
      assert t in multiset(mine);
    }
    assert |multiset(mine)| == |mine|;
    top := LadderHeight(multiset(mine), symbol, 75.0);
    assert top in mine;
  }

  // ---- Closing trades ---------------------------------------------------------------------------

  lemma BotBookNonNegative(ts: seq<PaperTrade>)
    requires BotBook(ts)
    ensures NonNegative(ts)
  {
  }

  /** Fewer open trades break no limit. */
  lemma LimitsSurviveCloses(acct: Account, fewer: seq<PaperTrade>, open: seq<PaperTrade>)
    requires multiset(fewer) <= multiset(open) && BotBook(open) && WithinLimits(acct, open)
    ensures WithinLimits(acct, fewer)
  {
    BotBookNonNegative(open);
    forall g: Group
      ensures Deployed(acct, g, fewer) <= Deployed(acct, g, open) && Count(acct, g, fewer) <= Count(acct, g, open)
    {
      FewerTradesLessExposure(acct, g, fewer, open);
    }
    CountEverything(acct, fewer);
    CountEverything(acct, open);
  }

  lemma CountEverything(acct: Account, open: seq<PaperTrade>)
    ensures Count(acct, Everything, open) == |open|
  {
  }

  lemma LadderSurvivesCloses(fewer: multiset<PaperTrade>, open: multiset<PaperTrade>)
    requires fewer <= open && Ladder(open)
    ensures Ladder(fewer)
  {
    forall x, y | x in fewer && y in fewer && x.symbol == y.symbol
      ensures (x == y && fewer[x] == 1) || Climbs(x, y) || Climbs(y, x)
    {
      assert x in open && y in open && fewer[x] <= open[x];
    }
  }

  // ---- Sizes ------------------------------------------------------------------------------------

  lemma {:induction false} EachTradeIsWorth(acct: Account, g: Group, open: seq<PaperTrade>)
    requires BotBook(open)
    ensures Deployed(acct, g, open) >= 125.0 * Count(acct, g, open) as real
    ensures Count(acct, g, open) > 0 ==> Deployed(acct, g, open) > 125.0 * Count(acct, g, open) as real
  {
    if open == [] {
    } else {
      var init, last := open[..|open| - 1], open[|open| - 1];
      EachTradeIsWorth(acct, g, init);
      assert last in open;
    }
  }

  /** Each bot trade is worth more than 125, so the 750 cap alone admits at most five per instrument. */
  lemma PositionCapLimitsCount(acct: Account, symbol: string, open: seq<PaperTrade>)
    requires BotBook(open) && Deployed(acct, InInstrument(symbol), open) <= 750.0
    ensures Count(acct, InInstrument(symbol), open) <= 5
  {
    EachTradeIsWorth(acct, InInstrument(symbol), open);
  }

  lemma {:induction false} SplitBySide(acct: Account, symbol: string, open: seq<PaperTrade>)
    ensures Deployed(acct, InInstrument(symbol), open) ==
            Deployed(acct, InPosition(symbol, Buy), open) + Deployed(acct, InPosition(symbol, Sell), open)
    ensures Count(acct, InInstrument(symbol), open) ==
            Count(acct, InPosition(symbol, Buy), open) + Count(acct, InPosition(symbol, Sell), open)
  {
    if open == [] {
    } else {
      SplitBySide(acct, symbol, open[..|open| - 1]);
    }
  }

  // ---- Opening a trade --------------------------------------------------------------------------

  lemma AcceptedIsBotTrade(acct: Account, seen: seq<PaperTrade>, c: Candidate, action: PositionAction, p: Provenance)
    requires PortfolioGate(acct, seen, c)
    ensures IsBotTrade(TradeFor(c, action, p))
  {
    SizeIsLargestThatFits(c.Price());
    assert TradeFor(c, action, p).Notional() == QuantityFor(c.Price()) as real * c.Price();
  }

  /** A new position or an add leaves room under the 750 cap and on one side only. */
  lemma ClassificationLeavesRoom(acct: Account, seen: seq<PaperTrade>, symbol: string, side: Side, confidence: real,
                                 agreement: Agreement, notional: real, now: int)
    requires BotBook(seen) && notional <= 250.0
    requires var action := Classified(acct, seen, symbol, side, confidence, agreement, notional, now);
             action == NewPosition || action == AddToPosition
    ensures Count(acct, InPosition(symbol, side.Opposite()), OpenTrades(seen)) == 0
    ensures Deployed(acct, InInstrument(symbol), OpenTrades(seen)) + notional <= 750.0
  {
    var open := OpenTrades(seen);
    OpenTradesMembers(seen);
    SplitBySide(acct, symbol, open);
    EachTradeIsWorth(acct, InPosition(symbol, side.Opposite()), open);
    NothingHeldOn(acct, InPosition(symbol, side.Opposite()), open);
    NothingHeldOn(acct, InInstrument(symbol), open);
  }

  lemma GateKeepsPosition(acct: Account, seen: seq<PaperTrade>, c: Candidate)
    requires PositionGate(acct, seen, c) && BotBook(seen)
    ensures HasPositionRoom(acct, OpenTrades(seen), c.score.symbol, c.Side(), c.Notional())
  {
    var notional := c.Notional();
    assert notional <= 250.0 by { SizeIsLargestThatFits(c.Price()); }
    ClassificationLeavesRoom(acct, seen, c.score.symbol, c.Side(), c.score.confidence, c.score.agreement, notional,
                             c.reading.checkedAt);
  }

  lemma {:induction false} NothingHeldOn(acct: Account, g: Group, open: seq<PaperTrade>)
    ensures Count(acct, g, open) == 0 ==> Deployed(acct, g, open) == 0.0
  {
    if open == [] {
    } else {
      NothingHeldOn(acct, g, open[..|open| - 1]);
    }
  }

  /** `open` has room in the instrument: nothing on the other side, and space under the cap. */
  predicate HasPositionRoom(acct: Account, open: seq<PaperTrade>, symbol: string, side: Side, notional: real) {
    && Count(acct, InPosition(symbol, side.Opposite()), open) == 0
    && Deployed(acct, InInstrument(symbol), open) + notional <= 750.0
  }

  predicate HasAllRoom(acct: Account, open: seq<PaperTrade>, symbol: string, side: Side, notional: real) {
    HasRoom(acct, open, symbol, side, notional) && HasPositionRoom(acct, open, symbol, side, notional)
  }

  lemma RoomSurvivesCloses(acct: Account, open: seq<PaperTrade>, base: seq<PaperTrade>, symbol: string, side: Side,
                           notional: real)
    requires HasAllRoom(acct, base, symbol, side, notional) && multiset(open) <= multiset(base) && BotBook(base)
    ensures HasAllRoom(acct, open, symbol, side, notional)
  {
    BotBookNonNegative(base);
    CountEverything(acct, open);
    CountEverything(acct, base);
    FewerTradesLessExposure(acct, Everything, open, base);
    FewerTradesLessExposure(acct, InSector(acct.sectorOf(symbol)), open, base);
    FewerTradesLessExposure(acct, OnSide(side), open, base);
    FewerTradesLessExposure(acct, InPosition(symbol, side.Opposite()), open, base);
    FewerTradesLessExposure(acct, InInstrument(symbol), open, base);
  }

  lemma RoomKeepsLimits(acct: Account, open: seq<PaperTrade>, t: PaperTrade)
    requires HasAllRoom(acct, open, t.symbol, t.side, t.Notional()) && WithinLimits(acct, open)
    ensures WithinLimits(acct, open + [t])
  {
    forall g: Group
      ensures Deployed(acct, g, open + [t]) == Deployed(acct, g, open) + Share(acct, g, t)
      ensures Count(acct, g, open + [t]) == Count(acct, g, open) + Unit(acct, g, t)
    {
      OneMore(acct, g, open, t);
    }
  }

  /** A trade accepted on the book as it was seen may be added to whatever is still open of it. */
  lemma AcceptedTradeKeepsLimits(acct: Account, seen: seq<PaperTrade>, open: seq<PaperTrade>, c: Candidate,
                                 action: PositionAction, p: Provenance)
    requires PortfolioGate(acct, seen, c) && BotBook(seen)
    requires multiset(open) <= multiset(OpenTrades(seen)) && WithinLimits(acct, open)
    ensures WithinLimits(acct, open + [TradeFor(c, action, p)])
  {
    var t, base := TradeFor(c, action, p), OpenTrades(seen);
    GateHasRoom(acct, seen, c);
    OfferedTrade(c, action, p);
    OpenTradesMembers(seen);
    RoomSurvivesCloses(acct, open, base, t.symbol, t.side, t.Notional());
    RoomKeepsLimits(acct, open, t);
  }

  lemma GateLeavesCash(acct: Account, seen: seq<PaperTrade>, c: Candidate)
    requires PortfolioGate(acct, seen, c)
    ensures HasRoomAndCash(acct, seen, c.score.symbol, c.Side(), c.Notional())
  {
    ProposalFits(acct, seen, c);
  }

  lemma GateHasRoom(acct: Account, seen: seq<PaperTrade>, c: Candidate)
    requires PortfolioGate(acct, seen, c) && BotBook(seen)
    ensures HasAllRoom(acct, OpenTrades(seen), c.score.symbol, c.Side(), c.Notional())
  {
    GateLeavesCash(acct, seen, c);
    GateKeepsPosition(acct, seen, c);
  }

  /** An accepted trade is at least 5 points more confident than every open trade of its instrument and
      no weaker in agreement: what it needs to be a rung above one is a later stamp. */
  lemma AcceptedTradeClimbs(acct: Account, seen: seq<PaperTrade>, c: Candidate, action: PositionAction, p: Provenance,
                            x: PaperTrade)
    requires PortfolioGate(acct, seen, c) && BotBook(seen) && Ladder(multiset(OpenTrades(seen)))
    requires x in OpenTrades(seen) && x.symbol == c.score.symbol
    ensures Climbs(x, TradeFor(c, action, p)) <==> x.timestamp < c.startedAt
    ensures !Climbs(TradeFor(c, action, p), x)
  {
    var open, symbol, side := OpenTrades(seen), c.score.symbol, c.Side();
    OpenTradesMembers(seen);
    AcceptedOnHeldIsAdd(acct, seen, c, x);
    GateKeepsPosition(acct, seen, c);
    if x.side != side { MemberIsCounted(acct, InPosition(symbol, side.Opposite()), open, x); }
    LatestTops(seen, symbol, side, x);
    ImprovesOnAll(x, LatestBotTrade(seen, symbol, side).value, TradeFor(c, action, p));
  }

  /** In a ladder the bot's latest trade is the top rung. */
  lemma LatestTops(seen: seq<PaperTrade>, symbol: string, side: Side, x: PaperTrade)
    requires BotBook(seen) && Ladder(multiset(OpenTrades(seen)))
    requires x in OpenTrades(seen) && x.symbol == symbol && x.side == side
    ensures LatestBotTrade(seen, symbol, side).Some?
    ensures var latest := LatestBotTrade(seen, symbol, side).value;
            IsBotTrade(latest) && (x == latest || Climbs(x, latest))
  {
    OpenTradesMembers(seen);
    LatestIsComparable(seen, symbol, side, x);
    var latest := LatestBotTrade(seen, symbol, side).value;
    var k := LatestBotTradeAt(seen, symbol, side);
    assert x in multiset(OpenTrades(seen)) && latest in multiset(OpenTrades(seen));
    var j :| 0 <= j < |seen| && seen[j] == x;
    assert x.timestamp <= latest.timestamp;
  }

  lemma ImprovesOnAll(x: PaperTrade, latest: PaperTrade, t: PaperTrade)
    requires IsBotTrade(x) && IsBotTrade(latest) && (x == latest || Climbs(x, latest))
    requires t.confidence.Some? && t.confidence.value >= latest.confidence.value + 5.0
    requires t.agreement.Some? && NoWeaker(t.agreement.value, latest.agreement.value)
    ensures Climbs(x, t) <==> x.timestamp < t.timestamp
    ensures !Climbs(t, x)
  {
  }

  /** In an instrument with an open trade an accepted candidate is an add. */
  lemma AcceptedOnHeldIsAdd(acct: Account, seen: seq<PaperTrade>, c: Candidate, x: PaperTrade)
    requires PositionGate(acct, seen, c) && x in OpenTrades(seen) && x.symbol == c.score.symbol
    ensures ActionFor(acct, seen, c) == AddToPosition && Rested(seen, c.score.symbol, c.reading.checkedAt)
  {
    MemberIsCounted(acct, InInstrument(c.score.symbol), OpenTrades(seen), x);
  }

  /** A candidate examined within 30 minutes of the scan's start stamps its trade later than every open
      trade of its instrument, as those have to be 30 minutes old when it is examined. */
  lemma ShortScansStampLater(acct: Account, seen: seq<PaperTrade>, c: Candidate, x: PaperTrade)
    requires PositionGate(acct, seen, c) && x in OpenTrades(seen) && x.symbol == c.score.symbol
    requires c.reading.checkedAt - c.startedAt < 1800000
    ensures x.timestamp < c.startedAt
  {
    OpenTradesMembers(seen);
    AcceptedOnHeldIsAdd(acct, seen, c, x);
  }

  /** All open trades of the instrument were placed before the instant. */
  ghost predicate PlacedBefore(open: multiset<PaperTrade>, symbol: string, instant: int) {
    forall x | x in open && x.symbol == symbol :: x.timestamp < instant
  }

  /** An accepted trade extends the ladder, or what is left of it after closes, exactly if the scan
      started after every open trade of its instrument was placed. */
  lemma AcceptedTradeExtendsLadder(acct: Account, seen: seq<PaperTrade>, open: multiset<PaperTrade>, c: Candidate,
                                   action: PositionAction, p: Provenance)
    requires PortfolioGate(acct, seen, c) && BotBook(seen) && Ladder(multiset(OpenTrades(seen)))
    requires open <= multiset(OpenTrades(seen))
    ensures Ladder(open + multiset{TradeFor(c, action, p)}) <==> PlacedBefore(open, c.score.symbol, c.startedAt)
  {
    var t := TradeFor(c, action, p);
    forall x | x in open && x.symbol == t.symbol
      ensures (Climbs(x, t) <==> x.timestamp < c.startedAt) && !Climbs(t, x)
    {
      assert x in multiset(OpenTrades(seen));
      AcceptedTradeClimbs(acct, seen, c, action, p, x);
    }
    LadderSurvivesCloses(open, multiset(OpenTrades(seen)));
    TopRung(open, t);
  }

  /** Adding a trade to a ladder keeps it one exactly if all of its instrument climb to it. */
  lemma TopRung(open: multiset<PaperTrade>, t: PaperTrade)
    requires Ladder(open) && forall x | x in open && x.symbol == t.symbol :: !Climbs(t, x)
    ensures Ladder(open + multiset{t}) <==> forall x | x in open && x.symbol == t.symbol :: Climbs(x, t)
  {
    var after := open + multiset{t};
    assert !Climbs(t, t);
    if Ladder(after) {
      forall x | x in open && x.symbol == t.symbol
        ensures Climbs(x, t)
      {
        assert x in after && t in after;
        assert x == t ==> after[x] >= 2;
      }
    } else {
      var x, y :| x in after && y in after && x.symbol == y.symbol
                  && !((x == y && after[x] == 1) || Climbs(x, y) || Climbs(y, x));
      assert x == t || x in open;
      assert y == t || y in open;
    }
  }

  // ---- One scan on a book that may have lost open trades meanwhile -------------------------------

  ghost predicate ShorterThanAddInterval(input: ScanInput) {
    forall i: nat :: input.readings(i).checkedAt - input.startedAt < 1800000
  }

  lemma ScanTradeIsAccepted(acct: Account, seen: seq<PaperTrade>, input: ScanInput, d: BotDecision,
                            trade: Option<PaperTrade>)
    returns (c: Candidate, action: PositionAction)
    requires IsScan(acct, seen, input, d, trade) && trade.Some?
    ensures c in Candidates(input) && c.startedAt == input.startedAt
    ensures ShorterThanAddInterval(input) ==>
              c.reading.checkedAt - c.startedAt < 1800000
    ensures PortfolioGate(acct, seen, c) && trade.value == TradeFor(c, action, d.provenance)
  {
    c := Candidates(input)[|d.candidates| - 1];
    action := ActionFor(acct, seen, c);
  }

  /** The trade of a scan keeps the book within its limits, however long the scan took, even if trades
      it saw open were closed before it landed. */
  lemma ScanKeepsLimits(acct: Account, seen: seq<PaperTrade>, book: seq<PaperTrade>, input: ScanInput,
                        d: BotDecision, trade: Option<PaperTrade>)
    requires IsScan(acct, seen, input, d, trade) && trade.Some? && BotBook(seen)
    requires LimitedBook(acct, book) && multiset(OpenTrades(book)) <= multiset(OpenTrades(seen))
    ensures LimitedBook(acct, book + [trade.value])
  {
    var c, action := ScanTradeIsAccepted(acct, seen, input, d, trade);
    OneMoreOpen(book, trade.value);
    AcceptedIsBotTrade(acct, seen, c, action, d.provenance);
    AcceptedTradeKeepsLimits(acct, seen, OpenTrades(book), c, action, d.provenance);
  }

  /** And it keeps the ladder exactly if the scan started after every trade still open in the
      instrument was placed. */
  lemma ScanExtendsLadder(acct: Account, seen: seq<PaperTrade>, book: seq<PaperTrade>, input: ScanInput,
                          d: BotDecision, trade: Option<PaperTrade>)
    requires IsScan(acct, seen, input, d, trade) && trade.Some?
    requires BotBook(seen) && Ladder(multiset(OpenTrades(seen)))
    requires multiset(OpenTrades(book)) <= multiset(OpenTrades(seen))
    ensures Ladder(multiset(OpenTrades(book + [trade.value]))) <==>
            PlacedBefore(multiset(OpenTrades(book)), trade.value.symbol, input.startedAt)
  {
    var c, action := ScanTradeIsAccepted(acct, seen, input, d, trade);
    var open := OpenTrades(book);
    OneMoreOpen(book, trade.value);
    AcceptedTradeExtendsLadder(acct, seen, multiset(open), c, action, d.provenance);
    assert multiset(open + [trade.value]) == multiset(open) + multiset{trade.value};
  }

  /** A scan of less than 30 minutes does. */
  lemma ShortScanExtendsLadder(acct: Account, seen: seq<PaperTrade>, book: seq<PaperTrade>, input: ScanInput,
                               d: BotDecision, trade: Option<PaperTrade>)
    requires IsScan(acct, seen, input, d, trade) && trade.Some? && ShorterThanAddInterval(input)
    requires multiset(OpenTrades(book)) <= multiset(OpenTrades(seen))
    ensures PlacedBefore(multiset(OpenTrades(book)), trade.value.symbol, input.startedAt)
  {
    var c, action := ScanTradeIsAccepted(acct, seen, input, d, trade);
    forall x | x in multiset(OpenTrades(book)) && x.symbol == trade.value.symbol
      ensures x.timestamp < input.startedAt
    {
      assert x in multiset(OpenTrades(seen));
      ShortScansStampLater(acct, seen, c, x);
    }
  }

  /** Right after a scan that opened a trade on an unchanged list, at least 1000 of cash is left. */
  lemma ScanLeavesCash(acct: Account, trades: seq<PaperTrade>, input: ScanInput, d: BotDecision,
                       trade: Option<PaperTrade>)
    requires IsScan(acct, trades, input, d, trade) && trade.Some?
    ensures AvailableCash(acct, trades + [trade.value]) >= 1000.0
  {
    var c, action := ScanTradeIsAccepted(acct, trades, input, d, trade);
    GateLeavesCash(acct, trades, c);
    OfferedTrade(c, action, d.provenance);
    CashAfterOpening(acct, trades, trade.value);
  }

  lemma CashAfterOpening(acct: Account, trades: seq<PaperTrade>, t: PaperTrade)
    requires t.status == Open && HasRoomAndCash(acct, trades, t.symbol, t.side, t.Notional())
    ensures AvailableCash(acct, trades + [t]) >= 1000.0
  {
    FiguresOneMore(acct, trades, t);
  }
}
