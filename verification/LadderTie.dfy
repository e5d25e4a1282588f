/** Why the ladder needs more than the lock: a run in which the holder of the lock, on a scan of half
    an hour, stamps an add at the very millisecond of the trade it adds to. */
module LadderTie {
  import opened Trades
  import opened PositionManager
  import opened BotRunner
  import opened BookLimits
  import opened WorkerSystem
  import opened LadderRuns
  import opened SampleRuns

  /** Every trade is written by a worker that holds its lock, within half an hour of its claim. */
  ghost predicate IsHeldRun(acct: Account, ss: seq<System>, steps: seq<Step>) {
    IsGuardedRun(acct, ss, steps) && IsRunWithin(acct, ADD_INTERVAL_MS, ss, steps)
  }

  lemma ExtendHeld(ss: seq<System>, steps: seq<Step>, s: System, step: Step)
    returns (longer: seq<System>, more: seq<Step>, s': System)
    requires IsHeldRun(ACCOUNT, ss, steps) && ss[|steps|] == s
    requires Enabled(ACCOUNT, s, step) && Guarded(s, step) && InTime(ADD_INTERVAL_MS, s, step)
    ensures IsHeldRun(ACCOUNT, longer, more)
    ensures longer[|more|] == s' == After(ACCOUNT, s, step)
  {
    s' := After(ACCOUNT, s, step);
    RunOneMore(ACCOUNT, ss, steps, step);
    longer, more := ss + [s'], steps + [step];
    forall i | 0 <= i < |more|
      ensures Guarded(longer[i], more[i]) && InTime(ADD_INTERVAL_MS, longer[i], more[i])
    {
      assert i < |steps| ==> longer[i] == ss[i] && more[i] == steps[i];
    }
  }

  // ---- The second scan --------------------------------------------------------------------------

  ghost const FIRST := FirstTrade(StrongBuy, 0, 0)

  ghost const ADD_INPUT := OneCandidate(StrongBuy, 85.0, 0, ADD_INTERVAL_MS)

  const ADD := Sole(StrongBuy, 85.0, 0, ADD_INTERVAL_MS)

  lemma FirstIsSample()
    ensures IsSample(FIRST) && Comparable(FIRST, "NVDA", Buy) && FIRST.timestamp == 0
    ensures FIRST.confidence == Some(80.0) && FIRST.agreement == Some(StrongAgreement)
  {
    SoleSize(Sole(StrongBuy, 80.0, 0, 0));
  }

  lemma FirstIsHeld()
    ensures OpenTrades([FIRST]) == [FIRST]
    ensures Count(ACCOUNT, InInstrument("NVDA"), [FIRST]) == 1
    ensures Deployed(ACCOUNT, InPosition("NVDA", Buy), [FIRST]) == 200.0
    ensures Deployed(ACCOUNT, InPosition("NVDA", Sell), [FIRST]) == 0.0
  {
    FirstIsSample();
    OneMoreOpen([], FIRST);
    OneMore(ACCOUNT, InInstrument("NVDA"), [], FIRST);
    OneMore(ACCOUNT, InPosition("NVDA", Buy), [], FIRST);
    OneMore(ACCOUNT, InPosition("NVDA", Sell), [], FIRST);
    assert [] + [FIRST] == [FIRST];
  }

  lemma AddIsSound()
    ensures IndividualGate(ADD) && ADD.Notional() == 200.0 && ADD.Side() == Buy
  {
    SoleSize(ADD);
  }

  /** Five points more confident, half an hour later: an add. */
  lemma AddIsAdd()
    ensures IndividualGate(ADD) && ActionFor(ACCOUNT, [FIRST], ADD) == AddToPosition
  {
    AddIsSound();
    FirstIsImprovedOn();
  }

  lemma FirstIsImprovedOn()
    ensures Classified(ACCOUNT, [FIRST], "NVDA", Buy, 85.0, StrongAgreement, 200.0, ADD_INTERVAL_MS) == AddToPosition
  {
    FirstIsSample();
    FirstIsHeld();
    assert IsLatestBotTrade([FIRST], "NVDA", Buy, 0);
    HeldPositionGrowsOnImprovement(ACCOUNT, [FIRST], "NVDA", Buy, 85.0, StrongAgreement, 200.0, ADD_INTERVAL_MS, 0);
  }

  lemma AddIsAccepted()
    ensures PortfolioGate(ACCOUNT, [FIRST], ADD) && ActionFor(ACCOUNT, [FIRST], ADD) == AddToPosition
  {
    AddIsAdd();
    FirstIsSample();
    SoleSize(ADD);
    SnapshotOfSample(CASH, FIRST);
    SampleFits(CASH, [FIRST], SampleSnapshot(CASH), Proposal(ADD));
  }

  ghost function AddTrade(): PaperTrade {
    TradeFor(ADD, AddToPosition, SoleProvenance(ADD_INPUT, ADD))
  }

  ghost function AddDecision(): BotDecision {
    AddIsAccepted();
    DecisionOf(ACCOUNT, [FIRST], SampleSnapshot(CASH), ADD_INPUT, ADD)
  }

  lemma AddScan()
    ensures IsScan(ACCOUNT, [FIRST], ADD_INPUT, AddDecision(), Some(AddTrade()))
  {
    AddIsAccepted();
    FirstIsSample();
    SnapshotOfSample(CASH, FIRST);
    SoleCandidate(StrongBuy, 85.0, 0, ADD_INTERVAL_MS);
    SoleScan(ACCOUNT, [FIRST], SampleSnapshot(CASH), ADD_INPUT, ADD);
  }

  // ---- The run ----------------------------------------------------------------------------------

  /** Worker 0 opens the first trade, all within the first millisecond. */
  lemma FirstOpens() returns (ss: seq<System>, steps: seq<Step>, s: System)
    ensures IsRunWithin(ACCOUNT, LOCK_TIMEOUT_MS, ss, steps) && ss[|steps|] == s
    ensures s.now == 0 && s.book == [FIRST] && s.lock == Held(0, 0) && s.decisions == [] && s.records == []
    ensures s.phases.Keys == {0} && s.phases[0].TradeSettled?
  {
    var delay := LOCK_TIMEOUT_MS;
    s := System(0, [], Free, map[], [], []);
    ss, steps := [s], [];
    ss, steps, s := ClaimAndDecide(CASH, delay, ss, steps, s, 0, StrongBuy);
    DecidingWrites(CASH, s, 0, 0, StrongBuy);
    ss, steps, s := Extend(ACCOUNT, delay, ss, steps, s, StoreTrade(0, Stored));
    assert [] + [FIRST] == [FIRST];
  }

  /** And releases the lock. */
  lemma FirstWorker() returns (ss: seq<System>, steps: seq<Step>, s: System)
    ensures IsHeldRun(ACCOUNT, ss, steps) && ss[|steps|] == s
    ensures s == System(0, [FIRST], Free, map[0 := Idle], [], [])
  {
    ss, steps, s := FirstOpens();
    ss, steps, s := FailAndRelease(LOCK_TIMEOUT_MS, ss, steps, s, 0);
    assert s.phases == map[0 := Idle];
    TimelyRunsAreGuarded(ACCOUNT, ss, steps);
    LongerDelayAllowsMore(ACCOUNT, ss, steps, LOCK_TIMEOUT_MS, ADD_INTERVAL_MS);
  }

  /** A worker fails after its trade is written, and releases the lock. */
  lemma FailAndRelease(delay: int, ss: seq<System>, steps: seq<Step>, s: System, w: WorkerId)
    returns (longer: seq<System>, more: seq<Step>, s': System)
    requires IsRunWithin(ACCOUNT, delay, ss, steps) && ss[|steps|] == s
    requires s.PhaseOf(w).TradeSettled? && s.lock.Held? && s.lock.holder == w
    ensures IsRunWithin(ACCOUNT, delay, longer, more) && longer[|more|] == s'
    ensures s' == s.(lock := Free, phases := s.phases[w := Idle])
  {
    longer, more, s' := Extend(ACCOUNT, delay, ss, steps, s, Fail(w));
    longer, more, s' := Extend(ACCOUNT, delay, longer, more, s', Release(w, true));
    assert s'.phases == s.phases[w := Idle];
  }

  ghost function Adding(): Phase {
    Decided(0, [FIRST], ADD_INPUT, AddDecision(), Some(AddTrade()))
  }

  /** Worker 1 claims and loads in that millisecond too, and half an hour passes. */
  lemma SecondWorkerLoads() returns (ss: seq<System>, steps: seq<Step>, s: System)
    ensures IsHeldRun(ACCOUNT, ss, steps) && ss[|steps|] == s
    ensures s == System(ADD_INTERVAL_MS, [FIRST], Held(1, 0), map[0 := Idle, 1 := Loaded(0, [FIRST])], [], [])
  {
    ss, steps, s := FirstWorker();
    ss, steps, s := ExtendHeld(ss, steps, s, Claim(1));
    ss, steps, s := ExtendHeld(ss, steps, s, Load(1, [FIRST]));
    ss, steps, s := ExtendHeld(ss, steps, s, Tick(ADD_INTERVAL_MS));
    assert s.phases == map[0 := Idle, 1 := Loaded(0, [FIRST])];
  }

  ghost function AddStep(): Step {
    Scan(1, ADD_INPUT, AddDecision(), Some(AddTrade()))
  }

  lemma AddIsEnabled(s: System)
    requires 1 in s.phases && s.phases[1] == Loaded(0, [FIRST]) && s.now == ADD_INTERVAL_MS
    ensures Enabled(ACCOUNT, s, AddStep())
    ensures After(ACCOUNT, s, AddStep()) == s.(phases := s.phases[1 := Adding()])
  {
    AddScan();
  }

  /** Its scan started in that millisecond and decides now. */
  lemma SecondWorker() returns (ss: seq<System>, steps: seq<Step>, s: System)
    ensures IsHeldRun(ACCOUNT, ss, steps) && ss[|steps|] == s
    ensures 1 in s.phases && s.phases[1] == Adding() && s.book == [FIRST] && s.lock == Held(1, 0) &&
        s.now == ADD_INTERVAL_MS
  {
    ss, steps, s := SecondWorkerLoads();
    AddIsEnabled(s);
    ss, steps, s := ExtendHeld(ss, steps, s, AddStep());
  }

  lemma FirstIsLadder()
    ensures Ladder(multiset(OpenTrades([FIRST])))
  {
    FirstIsHeld();
    assert multiset([FIRST]) == multiset{FIRST};
  }

  lemma AddTies(s: System)
    requires 1 in s.phases && s.phases[1] == Adding() && s.book == [FIRST] && s.lock == Held(1, 0) &&
        s.now == ADD_INTERVAL_MS
    ensures Enabled(ACCOUNT, s, StoreTrade(1, Stored)) && Guarded(s, StoreTrade(1, Stored))
    ensures Ties(s, StoreTrade(1, Stored)) && InTime(ADD_INTERVAL_MS, s, StoreTrade(1, Stored))
  {
    FirstIsSample();
    FirstIsHeld();
    assert FIRST in OpenTrades(s.book) && SameInstant(FIRST, AddTrade());
  }

  /** It holds the lock throughout; its add has the stamp of the trade it adds to. */
  lemma SameInstantBreaksLadder() returns (ss: seq<System>, steps: seq<Step>, s: System)
    ensures IsHeldRun(ACCOUNT, ss, steps) && ss[|steps|] == s && HasLadder(s)
    ensures Enabled(ACCOUNT, s, StoreTrade(1, Stored)) && Guarded(s, StoreTrade(1, Stored))
    ensures InTime(ADD_INTERVAL_MS, s, StoreTrade(1, Stored))
    ensures !HasLadder(After(ACCOUNT, s, StoreTrade(1, Stored)))
  {
    ss, steps, s := SecondWorker();
    FirstIsLadder();
    AddTies(s);
    DecidedByScansInRun(ACCOUNT, ss, steps, |steps|);
    TieBreaksLadder(ACCOUNT, s, StoreTrade(1, Stored));
  }

  // ---- Exactly how long -------------------------------------------------------------------------

  /** Whatever the account, the ladder holds in every state of every run whose trades are written by
      lock holders at most `delay` after their claims. */
  ghost predicate DelayKeepsLadder(delay: int) {
    forall acct: Account, ss: seq<System>, steps: seq<Step>, i: nat |
      IsGuardedRun(acct, ss, steps) && IsRunWithin(acct, delay, ss, steps) && i < |ss| && acct.startingCapital >= 0.0 ::
        HasLadder(ss[i])
  }

  lemma HalfAnHourIsTooLong(delay: int)
    requires delay >= ADD_INTERVAL_MS
    ensures !DelayKeepsLadder(delay)
  {
    var ss, steps, s := SameInstantBreaksLadder();
    ss, steps, s := ExtendHeld(ss, steps, s, StoreTrade(1, Stored));
    LongerDelayAllowsMore(ACCOUNT, ss, steps, ADD_INTERVAL_MS, delay);
    assert !HasLadder(ss[|steps|]) && ACCOUNT.startingCapital >= 0.0;
  }

  /** Under the lock, a delay between claim and write keeps every ladder if and only if it is less than
      the 30 minutes between adds. */
  lemma DelayKeepsLadderExactlyBelowInterval(delay: int)
    ensures DelayKeepsLadder(delay) <==> delay < 1800000
  {
    if delay >= ADD_INTERVAL_MS {
      HalfAnHourIsTooLong(delay);
    } else {
      forall acct: Account, ss: seq<System>, steps: seq<Step>, i: nat |
        IsGuardedRun(acct, ss, steps) && IsRunWithin(acct, delay, ss, steps) && i < |ss| && acct.startingCapital >= 0.0
        ensures HasLadder(ss[i])
      {
        LongerDelayAllowsMore(acct, ss, steps, delay, ADD_INTERVAL_MS - 1);
        ShortScansKeepLadder(acct, ss, steps, i);
      }
    }
  }
}
