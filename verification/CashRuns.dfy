/** Cash over whole runs: what a close pays out, and the floor that the minimum-cash check keeps. */
module CashRuns {
  import opened Trades
  import opened BotRunner
  import opened BookLimits
  import opened WorkerSystem
  import opened SampleRuns

  // ---- Closing a trade --------------------------------------------------------------------------

  /** Closing a trade gives back what was deployed in it, with its profit or loss. */
  lemma CloseMovesCash(acct: Account, book: seq<PaperTrade>, row: nat, closed: PaperTrade)
    requires row < |book| && book[row].status == Open && closed.status == Closed
    ensures AvailableCash(acct, book[row := closed]) ==
            AvailableCash(acct, book) + book[row].Notional() + closed.Booked()
  {
    var before, beyond := book[..row], book[row + 1..];
    assert book == before + [book[row]] + beyond;
    assert book[row := closed] == before + [closed] + beyond;
    CashInTheMiddle(acct, before, book[row], beyond);
    CashInTheMiddle(acct, before, closed, beyond);
  }

  /** What a position returns: its market value if bought, its stake less the rise in price if sold. */
  function Payout(t: PaperTrade, exitPrice: real): real {
    if t.side == Buy then t.quantity as real * exitPrice else t.quantity as real * (2.0 * t.entryPrice - exitPrice)
  }

  lemma Proceeds(quantity: real, entry: real, exit: real)
    ensures quantity * entry + (exit - entry) * quantity == quantity * exit
    ensures quantity * entry + (entry - exit) * quantity == quantity * (2.0 * entry - exit)
  {
  }

  lemma ClosedProceeds(t: PaperTrade, exitPrice: real, now: int)
    ensures t.Notional() + BuildClosedTrade(t, exitPrice, now).Booked() == Payout(t, exitPrice)
  {
    Proceeds(t.quantity as real, t.entryPrice, exitPrice);
  }

  /** Closing a trade changes the cash of the whole book by exactly what the position returns. */
  lemma ClosingPaysOut(acct: Account, book: seq<PaperTrade>, row: nat, exitPrice: real, now: int)
    requires row < |book| && book[row].status == Open
    ensures AvailableCash(acct, book[row := BuildClosedTrade(book[row], exitPrice, now)]) ==
            AvailableCash(acct, book) + Payout(book[row], exitPrice)
  {
    CloseMovesCash(acct, book, row, BuildClosedTrade(book[row], exitPrice, now));
    ClosedProceeds(book[row], exitPrice, now);
  }

  lemma PercentOfStake(ratio: real, entry: real, rise: real, quantity: real)
    requires ratio * entry == rise
    ensures ratio * 100.0 * (quantity * entry) == 100.0 * (rise * quantity)
  {
  }

  /** A close keeps everything else about the trade; the profit in percent is that of its stake, and none
      for a trade entered at no price. */
  lemma ClosedTradeTells(t: PaperTrade, exitPrice: real, now: int)
    ensures var c := BuildClosedTrade(t, exitPrice, now);
            && c.status == Closed && c.closedAt == Some(now)
            && c.realisedPnl.Some? && c.realisedPnlPercent.Some?
            && c.realisedPnl.value == Payout(t, exitPrice) - t.quantity as real * t.entryPrice
            && (t.entryPrice == 0.0 ==> c.realisedPnlPercent.value == 0.0)
            && (t.entryPrice != 0.0 ==>
                  c.realisedPnlPercent.value * (t.quantity as real * t.entryPrice) == 100.0 * c.realisedPnl.value)
            && c == t.(status := Closed, closedAt := c.closedAt, realisedPnl := c.realisedPnl,
                       realisedPnlPercent := c.realisedPnlPercent)
  {
    ClosedProceeds(t, exitPrice, now);
    if t.entryPrice != 0.0 {
      var rise := PnlDirection(t, exitPrice);
      PercentOfStake(rise / t.entryPrice, t.entryPrice, rise, t.quantity as real);
    }
  }

  // ---- The floor --------------------------------------------------------------------------------

  function Cash(acct: Account, s: System): real { AvailableCash(acct, s.book) }

  function CashFloor(acct: Account): real {
    if acct.startingCash < 1000.0 then acct.startingCash else 1000.0
  }

  /** If the step closes a trade, the position is not worth less than nothing. */
  predicate Pays(s: System, step: Step) {
    step.CloseTrade? && step.row < |s.book| ==> Payout(s.book[step.row], step.exitPrice) >= 0.0
  }

  /** While a worker holds the lock, the book has at least the cash the worker saw. */
  ghost predicate CashView(acct: Account, s: System, w: WorkerId)
    requires w in s.phases
  {
    HasLoaded(s, w) ==> AvailableCash(acct, s.phases[w].seen) <= Cash(acct, s)
  }

  ghost predicate Solvent(acct: Account, s: System) {
    Cash(acct, s) >= CashFloor(acct) && forall w | w in s.phases :: CashView(acct, s, w)
  }

  lemma StepKeepsSolvent(acct: Account, s: System, step: Step)
    requires Solvent(acct, s) && AllDecidedByScans(acct, s)
    requires Enabled(acct, s, step) && Guarded(s, step) && Pays(s, step)
    ensures Solvent(acct, After(acct, s, step))
  {
    match step
    case CloseTrade(row, exitPrice) =>
      var s' := After(acct, s, step);
      ClosingPaysOut(acct, s.book, row, exitPrice, s.now);
      MoreCashIsSolvent(acct, s, s');
    case Load(w, seen) => LoadKeepsSolvent(acct, s, w, seen);
    case StoreTrade(w, result) => StoreTradeKeepsSolvent(acct, s, w, result);
    case _ => QuietStepKeepsSolvent(acct, s, step);
  }

  lemma MoreCashIsSolvent(acct: Account, s: System, s': System)
    requires Solvent(acct, s) && s'.phases == s.phases && s'.lock == s.lock && Cash(acct, s') >= Cash(acct, s)
    ensures Solvent(acct, s')
  {
    forall w | w in s'.phases
      ensures CashView(acct, s', w)
    {
      assert CashView(acct, s, w);
    }
  }

  lemma LoadKeepsSolvent(acct: Account, s: System, w: WorkerId, seen: seq<PaperTrade>)
    requires Solvent(acct, s) && Enabled(acct, s, Load(w, seen))
    ensures Solvent(acct, After(acct, s, Load(w, seen)))
  {
    var s' := After(acct, s, Load(w, seen));
    CashIgnoresOrder(acct, seen, s.book);
    forall v | v in s'.phases
      ensures CashView(acct, s', v)
    {
      assert v in s.phases ==> CashView(acct, s, v);
    }
  }

  lemma StoreTradeKeepsSolvent(acct: Account, s: System, w: WorkerId, result: WriteResult)
    requires Solvent(acct, s) && AllDecidedByScans(acct, s)
    requires Enabled(acct, s, StoreTrade(w, result)) && Guarded(s, StoreTrade(w, result))
    ensures Solvent(acct, After(acct, s, StoreTrade(w, result)))
  {
    StoreTradeEndsScanning(acct, s, w, result);
    WrittenTradeLeavesCash(acct, s, w);
    OthersKeepCashViews(acct, s, After(acct, s, StoreTrade(w, result)), w);
  }

  lemma WrittenTradeLeavesCash(acct: Account, s: System, w: WorkerId)
    requires Solvent(acct, s) && AllDecidedByScans(acct, s)
    requires w in s.phases && s.phases[w].Decided? && s.phases[w].trade.Some?
    requires s.lock == Held(w, s.phases[w].since)
    ensures AvailableCash(acct, s.book + [s.phases[w].trade.value]) >= 1000.0
  {
    var p := s.phases[w];
    assert CashView(acct, s, w) && DecidedByScan(acct, s.now, p);
    ScanLeavesCash(acct, p.seen, p.input, p.decision, p.trade);
    CashOneMore(acct, p.seen, p.trade.value);
    CashOneMore(acct, s.book, p.trade.value);
  }

  lemma OthersKeepCashViews(acct: Account, s: System, s': System, w: WorkerId)
    requires s.lock.Held? && s.lock.holder == w && s'.lock == s.lock
    requires w in s'.phases && !s'.phases[w].Scanning() && s'.phases == s.phases[w := s'.phases[w]]
    ensures forall v | v in s'.phases :: CashView(acct, s', v)
  {
  }

  lemma QuietStepKeepsSolvent(acct: Account, s: System, step: Step)
    requires Solvent(acct, s) && Enabled(acct, s, step) && IsQuiet(step)
    ensures Solvent(acct, After(acct, s, step))
  {
    var s' := After(acct, s, step);
    QuietStepKeepsBook(acct, s, step);
    forall v | HasLoaded(s', v)
      ensures CashView(acct, s', v)
    {
      QuietStepShowsNothing(acct, s, step, v);
      assert CashView(acct, s, v);
    }
  }

  lemma {:induction false} SolventInRun(acct: Account, ss: seq<System>, steps: seq<Step>, i: nat)
    requires IsGuardedRun(acct, ss, steps) && i < |ss|
    requires forall k | 0 <= k < i :: Pays(ss[k], steps[k])
    ensures Solvent(acct, ss[i])
  {
    if i == 0 {
    } else {
      SolventInRun(acct, ss, steps, i - 1);
      DecidedByScansInRun(acct, ss, steps, i - 1);
      StepKeepsSolvent(acct, ss[i - 1], steps[i - 1]);
    }
  }

  /** As long as trades are written by current lock holders and no close costs money, the cash of the
      book never falls below 1000, or below the starting cash if that is less. */
  lemma CashStaysAboveFloor(acct: Account, ss: seq<System>, steps: seq<Step>, i: nat)
    requires IsGuardedRun(acct, ss, steps) && i < |ss|
    requires forall k | 0 <= k < i :: Pays(ss[k], steps[k])
    ensures AvailableCash(acct, ss[i].book) >= CashFloor(acct)
  {
    SolventInRun(acct, ss, steps, i);
  }

  // ---- Exactly how much a close may cost ----------------------------------------------------------

  /** If the step closes a trade, the close costs no more than `cost`. */
  predicate CostsAtMost(cost: real, s: System, step: Step) {
    step.CloseTrade? && step.row < |s.book| ==> Payout(s.book[step.row], step.exitPrice) >= -cost
  }

  ghost predicate IsRunCosting(acct: Account, cost: real, ss: seq<System>, steps: seq<Step>) {
    IsGuardedRun(acct, ss, steps) && forall k | 0 <= k < |steps| :: CostsAtMost(cost, ss[k], steps[k])
  }

  /** Whatever the account, cash stays above its floor in every state of every run under the lock whose
      closes cost no more than `cost` each. */
  ghost predicate CostIsSafe(cost: real) {
    forall acct: Account, ss: seq<System>, steps: seq<Step>, i: nat |
      IsRunCosting(acct, cost, ss, steps) && i < |ss| ::
        Cash(acct, ss[i]) >= CashFloor(acct)
  }

  ghost const SOLD := FirstTrade(StrongSell, 0, 0)

  lemma SoldShares()
    ensures SOLD.status == Open && SOLD.side == Sell && SOLD.quantity == 2 && SOLD.entryPrice == 100.0
    ensures SOLD.Notional() == 200.0
  {
    SoleSize(Sole(StrongSell, 80.0, 0, 0));
  }

  lemma CashLeft(cash: real, t: PaperTrade)
    requires t.status == Open && t.Notional() == 200.0
    ensures AvailableCash(AccountWith(cash), [t]) == cash - 200.0
  {
    CashOneMore(AccountWith(cash), [], t);
    assert [] + [t] == [t];
  }

  // Two shares sold at 100 return what they were sold for, and their stake, less what it takes to buy them back.
  lemma CostlyPayout(t: PaperTrade, cost: real)
    requires t.side == Sell && t.quantity == 2 && t.entryPrice == 100.0
    ensures Payout(t, 200.0 + cost / 2.0) == -cost
  {
  }

  /** One worker sells two shares at 100; nothing is closed. */
  lemma OneSale(cash: real) returns (ss: seq<System>, steps: seq<Step>, s: System)
    requires cash >= 1200.0
    ensures IsGuardedRun(AccountWith(cash), ss, steps) && ss[|steps|] == s && s.book == [SOLD]
    ensures forall k | 0 <= k < |steps| :: !steps[k].CloseTrade?
  {
    var acct, delay := AccountWith(cash), LOCK_TIMEOUT_MS;
    s := System(0, [], Free, map[], [], []);
    ss, steps := [s], [];
    ss, steps, s := ClaimAndDecide(cash, delay, ss, steps, s, 0, StrongSell);
    DecidingWrites(cash, s, 0, 0, StrongSell);
    ss, steps, s := Extend(acct, delay, ss, steps, s, StoreTrade(0, Stored));
    TimelyRunsAreGuarded(acct, ss, steps);
  }

  /** The shares are bought back at a price that costs exactly `cost`. */
  lemma CostlyClose(cash: real, cost: real) returns (ss: seq<System>, steps: seq<Step>, s: System)
    requires cash >= 1200.0
    ensures IsRunCosting(AccountWith(cash), cost, ss, steps) && ss[|steps|] == s
    ensures Cash(AccountWith(cash), s) == cash - 200.0 - cost
  {
    var acct, step := AccountWith(cash), CloseTrade(0, 200.0 + cost / 2.0);
    ss, steps, s := OneSale(cash);
    SoldShares();
    CashLeft(cash, SOLD);
    CostlyPayout(SOLD, cost);
    ClosingPaysOut(acct, s.book, 0, step.exitPrice, s.now);
    RunOneMore(acct, ss, steps, step);
    ss, steps, s := ss + [After(acct, s, step)], steps + [step], After(acct, s, step);
  }

  lemma CostlyClosesAreUnsafe(cost: real)
    requires cost > 0.0
    ensures !CostIsSafe(cost)
  {
    var acct := AccountWith(1200.0);
    var ss, steps, s := CostlyClose(1200.0, cost);
    assert Cash(acct, ss[|steps|]) == 1000.0 - cost < CashFloor(acct);
  }

  /** Under the lock, closes that cost up to `cost` each are safe if and only if they cost nothing. */
  lemma CostIsSafeExactlyAtNothing(cost: real)
    ensures CostIsSafe(cost) <==> cost <= 0.0
  {
    if cost > 0.0 {
      CostlyClosesAreUnsafe(cost);
    } else {
      forall acct: Account, ss: seq<System>, steps: seq<Step>, i: nat |
        IsRunCosting(acct, cost, ss, steps) && i < |ss|
        ensures Cash(acct, ss[i]) >= CashFloor(acct)
      {
        forall k | 0 <= k < |steps|
          ensures Pays(ss[k], steps[k])
        {
          assert CostsAtMost(cost, ss[k], steps[k]);
        }
        CashStaysAboveFloor(acct, ss, steps, i);
      }
    }
  }
}
