/** How late a trade may be written: the limits hold in every run if trades are written within the
    lock's lifetime, and for no longer delay. The run that shows it has a slow scan outlive its lock
    and leave an instrument held on both sides. */
module LockExpiry {
  import opened Trades
  import opened BotRunner
  import opened BookLimits
  import opened WorkerSystem
  import opened SampleRuns

  // ---- The run ----------------------------------------------------------------------------------

  const LATE := LOCK_TIMEOUT_MS + 1

  /** Worker 0 claims and decides to buy; its lock expires. */
  lemma FirstDecider() returns (ss: seq<System>, steps: seq<Step>, s: System)
    ensures IsRunWithin(ACCOUNT, LOCK_TIMEOUT_MS, ss, steps) && ss[|steps|] == s
    ensures s == System(LATE, [], Held(0, 0), map[0 := Deciding(CASH, 0, StrongBuy)], [], [])
  {
    s := System(0, [], Free, map[], [], []);
    ss, steps := [s], [];
    ss, steps, s := ClaimAndDecide(CASH, LOCK_TIMEOUT_MS, ss, steps, s, 0, StrongBuy);
    ss, steps, s := Extend(ACCOUNT, LOCK_TIMEOUT_MS, ss, steps, s, Tick(LATE));
  }

  /** Then worker 1 claims and decides to sell. */
  lemma TwoDeciders() returns (ss: seq<System>, steps: seq<Step>, s: System)
    ensures IsRunWithin(ACCOUNT, LOCK_TIMEOUT_MS, ss, steps) && ss[|steps|] == s
    ensures s == System(LATE, [], Held(1, LATE),
                        map[0 := Deciding(CASH, 0, StrongBuy), 1 := Deciding(CASH, LATE, StrongSell)], [], [])
  {
    ss, steps, s := FirstDecider();
    ss, steps, s := ClaimAndDecide(CASH, LOCK_TIMEOUT_MS, ss, steps, s, 1, StrongSell);
    assert s.phases == map[0 := Deciding(CASH, 0, StrongBuy), 1 := Deciding(CASH, LATE, StrongSell)];
  }

  lemma WrittenBook(s: System, w: WorkerId, since: int, r: Recommendation)
    requires Opens(r) && w in s.phases && s.phases[w] == Deciding(CASH, since, r)
    ensures Enabled(ACCOUNT, s, StoreTrade(w, Stored))
    ensures After(ACCOUNT, s, StoreTrade(w, Stored)).book == s.book + [FirstTrade(r, since, since)]
  {
    DecidingWrites(CASH, s, w, since, r);
  }

  /** Worker 0's trade goes on the book although its lock is gone. */
  lemma LateWriteBreaksLimits(s: System)
    requires 0 in s.phases && s.phases[0] == Deciding(CASH, 0, StrongBuy)
    requires s.book == [FirstTrade(StrongSell, LATE, LATE)] && s.lock == Held(1, LATE)
    ensures Enabled(ACCOUNT, s, StoreTrade(0, Stored)) && !Guarded(s, StoreTrade(0, Stored))
    ensures !WithinLimits(ACCOUNT, OpenTrades(After(ACCOUNT, s, StoreTrade(0, Stored)).book))
  {
    WrittenBook(s, 0, 0, StrongBuy);
    SoldAndBought();
  }

  lemma SoldAndBought()
    ensures !WithinLimits(ACCOUNT, OpenTrades([FirstTrade(StrongSell, LATE, LATE)] + [FirstTrade(StrongBuy, 0, 0)]))
  {
    var sold, bought := FirstTrade(StrongSell, LATE, LATE), FirstTrade(StrongBuy, 0, 0);
    assert [sold] + [bought] == [] + [sold] + [bought];
    BothSides(sold, bought);
  }

  /** Then worker 1 writes. Up to here every write is in time; the one late write that follows, worker
      0's, a millisecond after its lock could be taken over, breaks the limits. */
  lemma OneLateWriteHoldsBothSides() returns (ss: seq<System>, steps: seq<Step>, s: System)
    ensures IsRunWithin(ACCOUNT, 300000, ss, steps) && ss[|steps|] == s
    ensures Enabled(ACCOUNT, s, StoreTrade(0, Stored)) && s.PhaseOf(0).Scanning()
    ensures s.now - s.PhaseOf(0).since == 300001
    ensures !Guarded(s, StoreTrade(0, Stored))
    ensures !WithinLimits(ACCOUNT, OpenTrades(After(ACCOUNT, s, StoreTrade(0, Stored)).book))
  {
    ss, steps, s := TwoDeciders();
    DecidingWrites(CASH, s, 1, LATE, StrongSell);
    ss, steps, s := Extend(ACCOUNT, LOCK_TIMEOUT_MS, ss, steps, s, StoreTrade(1, Stored));
    assert s.phases[0] == Deciding(CASH, 0, StrongBuy);
    LateWriteBreaksLimits(s);
  }

  lemma BothSides(sold: PaperTrade, bought: PaperTrade)
    requires sold.status == Open && bought.status == Open && sold.side == Sell && bought.side == Buy
    requires sold.symbol == "NVDA" && bought.symbol == "NVDA"
    ensures !WithinLimits(ACCOUNT, OpenTrades([] + [sold] + [bought]))
  {
    OneMoreOpen([], sold);
    OneMoreOpen([] + [sold], bought);
    OneMore(ACCOUNT, InPosition("NVDA", Buy), [] + [sold], bought);
    OneMore(ACCOUNT, InPosition("NVDA", Sell), [] + [sold], bought);
    OneMore(ACCOUNT, InPosition("NVDA", Sell), [], sold);
    assert !OneSided(ACCOUNT, OpenTrades([] + [sold] + [bought]), "NVDA");
  }

  // ---- Exactly how late -------------------------------------------------------------------------

  /** Whatever the account, the limits hold in every state of every run whose trades are written at
      most `delay` after their claims. */
  ghost predicate DelayIsSafe(delay: int) {
    forall acct: Account, ss: seq<System>, steps: seq<Step>, i: nat |
      IsRunWithin(acct, delay, ss, steps) && i < |ss| && acct.startingCapital >= 0.0 ::
        WithinLimits(acct, OpenTrades(ss[i].book))
  }

  lemma LateWritesAreUnsafe(delay: int)
    requires delay > 300000
    ensures !DelayIsSafe(delay)
  {
    var ss, steps, s := OneLateWriteHoldsBothSides();
    LongerDelayAllowsMore(ACCOUNT, ss, steps, LOCK_TIMEOUT_MS, delay);
    ss, steps, s := Extend(ACCOUNT, delay, ss, steps, s, StoreTrade(0, Stored));
    assert ss[|steps|] == s && ACCOUNT.startingCapital >= 0.0;
  }

  /** A delay between claim and write is safe if and only if it is at most the lock's five minutes. */
  lemma DelayIsSafeExactlyWithinTimeout(delay: int)
    ensures DelayIsSafe(delay) <==> delay <= 300000
  {
    if delay > 300000 {
      LateWritesAreUnsafe(delay);
    } else {
      forall acct: Account, ss: seq<System>, steps: seq<Step>, i: nat |
        IsRunWithin(acct, delay, ss, steps) && i < |ss| && acct.startingCapital >= 0.0
        ensures WithinLimits(acct, OpenTrades(ss[i].book))
      {
        LongerDelayAllowsMore(acct, ss, steps, delay, 300000);
        LimitsHoldInTimelyRuns(acct, ss, steps, i);
      }
    }
  }
}
