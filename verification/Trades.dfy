/** The vocabulary of the paper-trading book: trades, the groups the risk limits speak about, and
    the two measures of exposure (capital deployed and number of open trades) of a group. Money is
    `real`, an instant is an `int` number of milliseconds. */
module Trades {

  datatype Option<+T> = None | Some(value: T)

  datatype Side = Buy | Sell {
    function Opposite(): Side { if this == Buy then Sell else Buy }
  }

  /** A record keyed by the two sides. */
  datatype BySide<T> = BySide(buy: T, sell: T) {
    function At(d: Side): T { if d == Buy then buy else sell }

    function With(d: Side, v: T): BySide<T> { if d == Buy then BySide(v, sell) else BySide(buy, v) }
  }

  datatype Agreement = StrongAgreement | ModerateAgreement | MixedSignals | Conflict {
    function Rank(): int {
      match this
      case StrongAgreement => 3
      case ModerateAgreement => 2
      case MixedSignals => 1
      case Conflict => 0
    }
  }

  /** From strong agreement down to conflict, `a` comes no later than `b`. */
  predicate NoWeaker(a: Agreement, b: Agreement) {
    match b
    case StrongAgreement => a == StrongAgreement
    case ModerateAgreement => a == StrongAgreement || a == ModerateAgreement
    case MixedSignals => a != Conflict
    case Conflict => true
  }

  lemma RanksOrderAgreements(a: Agreement, b: Agreement)
    ensures a.Rank() >= b.Rank() <==> NoWeaker(a, b)
  {
  }

  datatype TradeStatus = Open | Closed

  datatype TradeSource = FromSignal | FromMarketIntelligence | FromBot

  datatype PositionAction = NewPosition | AddToPosition | HoldPosition | BlockPosition

  datatype Provenance = SampleData | VerifiedExternalData | FallbackSampleData | Backtest

  datatype CheckName =
    | MaxOneTradePerScan | MinimumConfidence | AgreementNotConflict | MaxNotionalPerTrade
    | SideMatchesPosition | ConfidenceImproved | AgreementNotWeaker | PositionValueWithinCap | MinimumTimeSinceLastAdd
    | MaxOpenTrades | MaxCapitalDeployed | MaxSectorExposure | MaxOpenTradesPerSector | MinimumCashRemaining
    | MaxSameDirectionTrades

  datatype RiskCheck = RiskCheck(name: CheckName, passed: bool)

  predicate AllPassed(checks: seq<RiskCheck>) {
    forall i | 0 <= i < |checks| :: checks[i].passed
  }

  datatype PaperTrade = PaperTrade(
    id: string,
    symbol: string,
    side: Side,
    quantity: int,
    entryPrice: real,
    timestamp: int,
    status: TradeStatus,
    source: TradeSource,
    confidence: Option<real>,
    agreement: Option<Agreement>,
    positionAction: Option<PositionAction>,
    closedAt: Option<int>,
    realisedPnl: Option<real>,
    realisedPnlPercent: Option<real>,
    provenance: Provenance)
  {
    function Notional(): real { quantity as real * entryPrice }

    function Booked(): real { if realisedPnl.Some? then realisedPnl.value else 0.0 }
  }

  /** What the account fixes for the whole run: the sector table and the two starting figures. */
  datatype Account = Account(sectorOf: string -> string, startingCapital: real, startingCash: real)

  datatype Group =
    | Everything
    | OnSide(side: Side)
    | InSector(sector: string)
    | InInstrument(symbol: string)
    | InPosition(symbol: string, side: Side)

  predicate InGroup(acct: Account, g: Group, t: PaperTrade) {
    match g
    case Everything => true
    case OnSide(side) => t.side == side
    case InSector(sector) => acct.sectorOf(t.symbol) == sector
    case InInstrument(symbol) => t.symbol == symbol
    case InPosition(symbol, side) => t.symbol == symbol && t.side == side
  }

  function Share(acct: Account, g: Group, t: PaperTrade): real {
    if InGroup(acct, g, t) then t.Notional() else 0.0
  }

  function Unit(acct: Account, g: Group, t: PaperTrade): nat {
    if InGroup(acct, g, t) then 1 else 0
  }

  /** Capital deployed in the trades of a group. */
  function Deployed(acct: Account, g: Group, open: seq<PaperTrade>): real {
    if open == [] then 0.0
    else Deployed(acct, g, open[..|open| - 1]) + Share(acct, g, open[|open| - 1])
  }

  /** Number of trades in a group. */
  function Count(acct: Account, g: Group, open: seq<PaperTrade>): nat {
    if open == [] then 0
    else Count(acct, g, open[..|open| - 1]) + Unit(acct, g, open[|open| - 1])
  }

  function OpenTrades(ts: seq<PaperTrade>): seq<PaperTrade> {
    if ts == [] then []
    else if ts[|ts| - 1].status == Open then OpenTrades(ts[..|ts| - 1]) + [ts[|ts| - 1]]
    else OpenTrades(ts[..|ts| - 1])
  }

  function ClosedTrades(ts: seq<PaperTrade>): seq<PaperTrade> {
    if ts == [] then []
    else if ts[|ts| - 1].status == Closed then ClosedTrades(ts[..|ts| - 1]) + [ts[|ts| - 1]]
    else ClosedTrades(ts[..|ts| - 1])
  }

  /** Profit booked by closed trades; a missing figure counts as zero. */
  function Realised(closed: seq<PaperTrade>): real {
    if closed == [] then 0.0
    else Realised(closed[..|closed| - 1]) + closed[|closed| - 1].Booked()
  }

  function AvailableCash(acct: Account, ts: seq<PaperTrade>): real {
    acct.startingCash - Deployed(acct, Everything, OpenTrades(ts)) + Realised(ClosedTrades(ts))
  }

  lemma OpenTradesMembers(ts: seq<PaperTrade>)
    ensures forall t :: t in OpenTrades(ts) <==> t in ts && t.status == Open
  {
    if ts == [] {
    } else {
      OpenTradesMembers(ts[..|ts| - 1]);
      assert ts == ts[..|ts| - 1] + [ts[|ts| - 1]];
    }
  }

  lemma OneMore(acct: Account, g: Group, ts: seq<PaperTrade>, t: PaperTrade)
    ensures Deployed(acct, g, ts + [t]) == Deployed(acct, g, ts) + Share(acct, g, t)
    ensures Count(acct, g, ts + [t]) == Count(acct, g, ts) + Unit(acct, g, t)
  {
    assert (ts + [t])[..|ts|] == ts;
  }

  lemma OneMoreOpen(ts: seq<PaperTrade>, t: PaperTrade)
    requires t.status == Open
    ensures OpenTrades(ts + [t]) == OpenTrades(ts) + [t]
    ensures ClosedTrades(ts + [t]) == ClosedTrades(ts)
  {
    assert (ts + [t])[..|ts|] == ts;
  }

  lemma {:induction false} Concat(acct: Account, g: Group, a: seq<PaperTrade>, b: seq<PaperTrade>)
    ensures Deployed(acct, g, a + b) == Deployed(acct, g, a) + Deployed(acct, g, b)
    ensures Count(acct, g, a + b) == Count(acct, g, a) + Count(acct, g, b)
  {
    if b == [] {
      assert a + b == a;
    } else {
      var init, last := b[..|b| - 1], b[|b| - 1];
      Concat(acct, g, a, init);
      assert a + b == (a + init) + [last];
      OneMore(acct, g, a + init, last);
    }
  }

  /** Removes one occurrence of `t` from `b`. */
  lemma TakeOut(acct: Account, g: Group, b: seq<PaperTrade>, t: PaperTrade) returns (rest: seq<PaperTrade>)
    requires t in b
    ensures multiset(b) == multiset(rest) + multiset{t} && |rest| == |b| - 1
    ensures forall x | x in rest :: x in b
    ensures Deployed(acct, g, b) == Deployed(acct, g, rest) + Share(acct, g, t)
    ensures Count(acct, g, b) == Count(acct, g, rest) + Unit(acct, g, t)
  {
    var j :| 0 <= j < |b| && b[j] == t;
    rest := b[..j] + b[j + 1..];
    assert b == (b[..j] + [t]) + b[j + 1..];
    Concat(acct, g, b[..j], b[j + 1..]);
    Concat(acct, g, b[..j] + [t], b[j + 1..]);
    OneMore(acct, g, b[..j], t);
  }

  predicate NonNegative(ts: seq<PaperTrade>) {
    forall t | t in ts :: 0.0 <= t.Notional()
  }

  lemma {:induction false} ExposureIsNonNegative(acct: Account, g: Group, ts: seq<PaperTrade>)
    requires NonNegative(ts)
    ensures 0.0 <= Deployed(acct, g, ts)
  {
    if ts == [] {
    } else {
      ExposureIsNonNegative(acct, g, ts[..|ts| - 1]);
    }
  }

  /** Taking trades away, in any order, never raises a measure. */
  lemma {:induction false} FewerTradesLessExposure(acct: Account, g: Group, a: seq<PaperTrade>, b: seq<PaperTrade>)
    requires multiset(a) <= multiset(b) && NonNegative(b)
    ensures Deployed(acct, g, a) <= Deployed(acct, g, b)
    ensures Count(acct, g, a) <= Count(acct, g, b)
    decreases |a|
  {
    if a == [] {
      ExposureIsNonNegative(acct, g, b);
    } else {
      var init, last := a[..|a| - 1], a[|a| - 1];
      assert a == init + [last];
      assert last in multiset(b);
      var rest := TakeOut(acct, g, b, last);
      assert multiset(init) == multiset(a) - multiset{last};
      assert multiset(rest) == multiset(b) - multiset{last};
      FewerTradesLessExposure(acct, g, init, rest);
    }
  }

  // ---- Cash -------------------------------------------------------------------------------------

  /** What one trade does to the available cash: its stake is taken out while it is open, and once it
      is closed its profit is put in, if that is known. */
  function CashEffect(t: PaperTrade): real {
    match t.status
    case Open => -(t.quantity as real * t.entryPrice)
    case Closed => if t.realisedPnl.Some? then t.realisedPnl.value else 0.0
  }

  lemma RealisedOneMore(closed: seq<PaperTrade>, t: PaperTrade)
    ensures Realised(closed + [t]) == Realised(closed) + t.Booked()
  {
    assert (closed + [t])[..|closed|] == closed;
  }

  lemma CashOneMore(acct: Account, ts: seq<PaperTrade>, t: PaperTrade)
    ensures AvailableCash(acct, ts + [t]) == AvailableCash(acct, ts) + CashEffect(t)
  {
    assert (ts + [t])[..|ts|] == ts;
    OneMore(acct, Everything, OpenTrades(ts), t);
    RealisedOneMore(ClosedTrades(ts), t);
  }

  function Effects(ts: seq<PaperTrade>): real {
    if ts == [] then 0.0 else Effects(ts[..|ts| - 1]) + CashEffect(ts[|ts| - 1])
  }

  /** The available cash is the starting cash and what each trade of the list does to it. */
  lemma {:induction false} CashIsSumOfEffects(acct: Account, ts: seq<PaperTrade>)
    ensures AvailableCash(acct, ts) == acct.startingCash + Effects(ts)
  {
    if ts == [] {
    } else {
      CashIsSumOfEffects(acct, ts[..|ts| - 1]);
      LastEffect(acct, ts);
    }
  }

  lemma LastEffect(acct: Account, ts: seq<PaperTrade>)
    requires ts != []
    ensures AvailableCash(acct, ts) == AvailableCash(acct, ts[..|ts| - 1]) + CashEffect(ts[|ts| - 1])
  {
    assert ts == ts[..|ts| - 1] + [ts[|ts| - 1]];
    CashOneMore(acct, ts[..|ts| - 1], ts[|ts| - 1]);
  }

  lemma {:induction false} EffectsConcat(a: seq<PaperTrade>, b: seq<PaperTrade>)
    ensures Effects(a + b) == Effects(a) + Effects(b)
  {
    if b == [] {
      assert a + b == a;
    } else {
      EffectsConcat(a, b[..|b| - 1]);
      assert (a + b)[..|a + b| - 1] == a + b[..|b| - 1];
    }
  }

  lemma EffectsInTheMiddle(a: seq<PaperTrade>, t: PaperTrade, b: seq<PaperTrade>)
    ensures Effects(a + [t] + b) == Effects(a + b) + CashEffect(t)
  {
    EffectsConcat(a + [t], b);
    EffectsConcat(a, [t]);
    EffectsConcat(a, b);
    assert [t][..0] == [];
  }

  lemma CashInTheMiddle(acct: Account, a: seq<PaperTrade>, t: PaperTrade, b: seq<PaperTrade>)
    ensures AvailableCash(acct, a + [t] + b) == AvailableCash(acct, a + b) + CashEffect(t)
  {
    EffectsInTheMiddle(a, t, b);
    CashIsSumOfEffects(acct, a + [t] + b);
    CashIsSumOfEffects(acct, a + b);
  }

  /** Removes one occurrence of `t` from `b`. */
  lemma TakeOutCash(acct: Account, b: seq<PaperTrade>, t: PaperTrade) returns (rest: seq<PaperTrade>)
    requires t in b
    ensures multiset(b) == multiset(rest) + multiset{t}
    ensures AvailableCash(acct, b) == AvailableCash(acct, rest) + CashEffect(t)
  {
    var j :| 0 <= j < |b| && b[j] == t;
    rest := b[..j] + b[j + 1..];
    assert b == b[..j] + [t] + b[j + 1..];
    CashInTheMiddle(acct, b[..j], t, b[j + 1..]);
  }

  /** The order in which a list of trades is read does not matter to the cash figure either. */
  lemma {:induction false} CashIgnoresOrder(acct: Account, a: seq<PaperTrade>, b: seq<PaperTrade>)
    requires multiset(a) == multiset(b)
    ensures AvailableCash(acct, a) == AvailableCash(acct, b)
    decreases |a|
  {
    if a == [] {
      assert |multiset(b)| == |b| == 0;
    } else {
      var init, last := a[..|a| - 1], a[|a| - 1];
      assert a == init + [last];
      assert last in multiset(b);
      var rest := TakeOutCash(acct, b, last);
      assert multiset(init) == multiset(a) - multiset{last} == multiset(rest);
      CashOneMore(acct, init, last);
      CashIgnoresOrder(acct, init, rest);
    }
  }
}
