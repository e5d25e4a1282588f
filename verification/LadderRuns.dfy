/** The confidence ladder over whole runs: each instrument's open trades rise by at least 5 points of
    confidence in the order they were placed, exactly as long as no trade is stamped at the very
    instant of an open trade of its instrument. */
module LadderRuns {
  import opened Trades
  import opened BotRunner
  import opened BookLimits
  import opened WorkerSystem

  ghost predicate HasLadder(s: System) {
    Ladder(multiset(OpenTrades(s.book)))
  }

  /** The step writes a trade stamped at the same instant as an open trade of its instrument. */
  ghost predicate Ties(s: System, step: Step) {
    && step.StoreTrade? && step.result != Refused
    && s.PhaseOf(step.w).Decided? && s.PhaseOf(step.w).trade.Some?
    && exists x | x in OpenTrades(s.book) :: SameInstant(x, s.PhaseOf(step.w).trade.value)
  }

  predicate SameInstant(x: PaperTrade, t: PaperTrade) {
    x.symbol == t.symbol && x.timestamp == t.timestamp
  }

  // ---- Stamps -----------------------------------------------------------------------------------

  ghost predicate StampedBy(book: seq<PaperTrade>, instant: int) {
    forall t | t in book :: t.timestamp <= instant
  }

  /** No trade is stamped in the future, nor, while a worker holds the lock, after its claim. */
  ghost predicate Stamped(s: System) {
    && StampedBy(s.book, s.now)
    && forall w | w in s.phases && s.phases[w].Scanning() && s.lock == Held(w, s.phases[w].since) ::
         StampedBy(s.book, s.phases[w].since)
  }

  lemma ScanStamps(acct: Account, seen: seq<PaperTrade>, input: ScanInput, d: BotDecision, trade: Option<PaperTrade>)
    requires IsScan(acct, seen, input, d, trade) && trade.Some?
    ensures trade.value.timestamp == input.startedAt && trade.value.status == Open
  {
    var c, action := ScanTradeIsAccepted(acct, seen, input, d, trade);
  }

  lemma WrittenTradeIsStamped(acct: Account, s: System, w: WorkerId)
    requires AllDecidedByScans(acct, s) && w in s.phases && s.phases[w].Decided? && s.phases[w].trade.Some?
    ensures var p := s.phases[w];
            p.trade.value.status == Open && p.since <= p.trade.value.timestamp == p.input.startedAt <= s.now
  {
    var p := s.phases[w];
    assert DecidedByScan(acct, s.now, p);
    ScanStamps(acct, p.seen, p.input, p.decision, p.trade);
  }

  lemma StepKeepsStamped(acct: Account, s: System, step: Step)
    requires Stamped(s) && AllDecidedByScans(acct, s) && Enabled(acct, s, step) && Guarded(s, step)
    ensures Stamped(After(acct, s, step))
  {
    match step
    case StoreTrade(w, result) =>
      StoreTradeEndsScanning(acct, s, w, result);
      WrittenTradeIsStamped(acct, s, w);
      StoreKeepsStamped(s, After(acct, s, step), w, s.phases[w].trade.value);
    case CloseTrade(row, exitPrice) =>
      var s' := After(acct, s, step);
      assert s'.book[row].timestamp == s.book[row].timestamp;
      StampsKept(s, s');
    case _ => QuietStepKeepsStamped(acct, s, step);
  }

  lemma StoreKeepsStamped(s: System, s': System, w: WorkerId, t: PaperTrade)
    requires Stamped(s) && s'.now == s.now && s'.lock == s.lock && s.lock.Held? && s.lock.holder == w
    requires s'.book == s.book || s'.book == s.book + [t]
    requires t.timestamp <= s.now && w in s'.phases && !s'.phases[w].Scanning()
    ensures Stamped(s')
  {
  }

  lemma StampsKept(s: System, s': System)
    requires Stamped(s) && s'.now == s.now && s'.lock == s.lock && s'.phases == s.phases
    requires |s'.book| == |s.book| && forall k | 0 <= k < |s.book| :: s'.book[k].timestamp == s.book[k].timestamp
    ensures Stamped(s')
  {
    forall instant | StampedBy(s.book, instant)
      ensures StampedBy(s'.book, instant)
    {
    }
  }

  lemma QuietStepKeepsStamped(acct: Account, s: System, step: Step)
    requires Stamped(s) && Enabled(acct, s, step) && !step.StoreTrade? && !step.CloseTrade?
    ensures Stamped(After(acct, s, step))
  {
  }

  // ---- The ladder -------------------------------------------------------------------------------

  ghost predicate LadderView(s: System, w: WorkerId)
    requires w in s.phases
  {
    HasLoaded(s, w) ==> Ladder(multiset(OpenTrades(s.phases[w].seen)))
  }

  ghost predicate LadderSeen(s: System) {
    HasLadder(s) && forall w | w in s.phases :: LadderView(s, w)
  }

  ghost predicate OnLadder(s: System) {
    Stamped(s) && LadderSeen(s)
  }

  /** A written trade keeps the ladder exactly if it ties with no open trade. */
  lemma StoredTradeExtendsLadder(acct: Account, s: System, w: WorkerId)
    requires Safe(acct, s) && AllDecidedByScans(acct, s) && OnLadder(s)
    requires w in s.phases && s.phases[w].Decided? && s.phases[w].trade.Some?
    requires s.lock == Held(w, s.phases[w].since)
    ensures var t := s.phases[w].trade.value;
            Ladder(multiset(OpenTrades(s.book + [t]))) <==>
              forall x | x in OpenTrades(s.book) :: !SameInstant(x, t)
  {
    var p := s.phases[w];
    assert ViewIsGood(s, w) && DecidedByScan(acct, s.now, p) && LadderView(s, w);
    WrittenTradeIsStamped(acct, s, w);
    ScanExtendsLadder(acct, p.seen, s.book, p.input, p.decision, p.trade);
    OpenTradesMembers(s.book);
    EarlierUnlessTied(s.book, p.since, p.trade.value);
  }

  lemma EarlierUnlessTied(book: seq<PaperTrade>, since: int, t: PaperTrade)
    requires StampedBy(book, since) && since <= t.timestamp
    ensures PlacedBefore(multiset(OpenTrades(book)), t.symbol, t.timestamp) <==>
            forall x | x in OpenTrades(book) :: !SameInstant(x, t)
  {
    var open := OpenTrades(book);
    OpenTradesMembers(book);
    assert forall x :: x in multiset(open) <==> x in open;
    assert forall x | x in open :: x.timestamp <= t.timestamp;
  }

  lemma StepKeepsOnLadder(acct: Account, s: System, step: Step)
    requires Safe(acct, s) && AllDecidedByScans(acct, s) && OnLadder(s)
    requires Enabled(acct, s, step) && Guarded(s, step) && !Ties(s, step)
    ensures OnLadder(After(acct, s, step))
  {
    StepKeepsStamped(acct, s, step);
    match step
    case StoreTrade(w, result) => StoreKeepsLadder(acct, s, w, result);
    case CloseTrade(row, exitPrice) => CloseKeepsLadder(acct, s, row, exitPrice);
    case Load(w, seen) => LoadKeepsLadder(acct, s, w, seen);
    case _ => QuietStepKeepsLadder(acct, s, step);
  }

  lemma StoreKeepsLadder(acct: Account, s: System, w: WorkerId, result: WriteResult)
    requires Safe(acct, s) && AllDecidedByScans(acct, s) && OnLadder(s)
    requires Enabled(acct, s, StoreTrade(w, result))
    requires Guarded(s, StoreTrade(w, result)) && !Ties(s, StoreTrade(w, result))
    ensures LadderSeen(After(acct, s, StoreTrade(w, result)))
  {
    StoreTradeEndsScanning(acct, s, w, result);
    StoredTradeExtendsLadder(acct, s, w);
    OthersKeepLadderViews(s, After(acct, s, StoreTrade(w, result)), w);
  }

  lemma CloseKeepsLadder(acct: Account, s: System, row: nat, exitPrice: real)
    requires LadderSeen(s) && Enabled(acct, s, CloseTrade(row, exitPrice))
    ensures LadderSeen(After(acct, s, CloseTrade(row, exitPrice)))
  {
    var s' := After(acct, s, CloseTrade(row, exitPrice));
    CloseOnlyRemoves(s.book, row, s'.book[row]);
    LadderSurvivesCloses(multiset(OpenTrades(s'.book)), multiset(OpenTrades(s.book)));
    SameLadderViews(s, s');
  }

  lemma SameLadderViews(s: System, s': System)
    requires s'.phases == s.phases && s'.lock == s.lock && forall w | w in s.phases :: LadderView(s, w)
    ensures forall w | w in s'.phases :: LadderView(s', w)
  {
    forall w | w in s'.phases
      ensures LadderView(s', w)
    {
      assert LadderView(s, w);
    }
  }

  lemma OthersKeepLadderViews(s: System, s': System, w: WorkerId)
    requires forall v | v in s.phases :: LadderView(s, v)
    requires s.lock.Held? && s.lock.holder == w && s'.lock == s.lock
    requires w in s'.phases && !s'.phases[w].Scanning() && s'.phases == s.phases[w := s'.phases[w]]
    ensures forall v | v in s'.phases :: LadderView(s', v)
  {
  }

  lemma LoadKeepsLadder(acct: Account, s: System, w: WorkerId, seen: seq<PaperTrade>)
    requires LadderSeen(s) && Enabled(acct, s, Load(w, seen))
    ensures LadderSeen(After(acct, s, Load(w, seen)))
  {
    var s' := After(acct, s, Load(w, seen));
    SameOpenTrades(s.book, seen);
    forall v | v in s'.phases
      ensures LadderView(s', v)
    {
      assert v in s.phases ==> LadderView(s, v);
    }
  }

  lemma QuietStepKeepsLadder(acct: Account, s: System, step: Step)
    requires LadderSeen(s) && Enabled(acct, s, step) && IsQuiet(step)
    ensures LadderSeen(After(acct, s, step))
  {
    var s' := After(acct, s, step);
    QuietStepKeepsBook(acct, s, step);
    forall v | HasLoaded(s', v)
      ensures LadderView(s', v)
    {
      QuietStepShowsNothing(acct, s, step, v);
      assert LadderView(s, v);
    }
  }

  lemma {:induction false} OnLadderInRun(acct: Account, ss: seq<System>, steps: seq<Step>, i: nat)
    requires IsGuardedRun(acct, ss, steps) && i < |ss| && acct.startingCapital >= 0.0
    requires forall k | 0 <= k < i :: !Ties(ss[k], steps[k])
    ensures OnLadder(ss[i])
  {
    if i == 0 {
    } else {
      OnLadderInRun(acct, ss, steps, i - 1);
      SafeInGuardedRun(acct, ss, steps, i - 1);
      DecidedByScansInRun(acct, ss, steps, i - 1);
      StepKeepsOnLadder(acct, ss[i - 1], steps[i - 1]);
    }
  }

  /** Two trades of an instrument stamped at the same instant are no ladder. */
  lemma TiedIsNoLadder(open: seq<PaperTrade>, x: PaperTrade, t: PaperTrade)
    requires x in open && SameInstant(x, t)
    ensures !Ladder(multiset(open + [t]))
  {
    var after := multiset(open) + multiset{t};
    assert multiset(open + [t]) == after;
    assert x in after && t in after && (x == t ==> after[x] >= 2);
    assert !Climbs(x, t) && !Climbs(t, x);
  }

  lemma TieBreaksLadder(acct: Account, s: System, step: Step)
    requires AllDecidedByScans(acct, s) && Enabled(acct, s, step) && Ties(s, step)
    ensures !HasLadder(After(acct, s, step))
  {
    var w := step.w;
    StoreTradeEndsScanning(acct, s, w, step.result);
    WrittenTradeIsStamped(acct, s, w);
    var t := s.phases[w].trade.value;
    var x :| x in OpenTrades(s.book) && SameInstant(x, t);
    OneMoreOpen(s.book, t);
    TiedIsNoLadder(OpenTrades(s.book), x, t);
  }

  /** Over every run whose trades are written by current lock holders: the ladder holds in all states
      if and only if no trade is stamped at the instant of an open trade of its instrument. */
  lemma LadderHoldsExactlyWithoutTies(acct: Account, ss: seq<System>, steps: seq<Step>)
    requires IsGuardedRun(acct, ss, steps) && acct.startingCapital >= 0.0
    ensures (forall i | 0 <= i < |ss| :: HasLadder(ss[i])) <==> (forall i | 0 <= i < |steps| :: !Ties(ss[i], steps[i]))
  {
    if forall i | 0 <= i < |steps| :: !Ties(ss[i], steps[i]) {
      forall i | 0 <= i < |ss|
        ensures HasLadder(ss[i])
      {
        OnLadderInRun(acct, ss, steps, i);
      }
    } else {
      var i :| 0 <= i < |steps| && Ties(ss[i], steps[i]);
      DecidedByScansInRun(acct, ss, steps, i);
      TieBreaksLadder(acct, ss[i], steps[i]);
      assert !HasLadder(ss[i + 1]);
    }
  }

  // ---- Short scans ------------------------------------------------------------------------------

  const ADD_INTERVAL_MS := 1800000

  /** A trade written less than 30 minutes after its claim ties with none. */
  lemma ShortScansDoNotTie(acct: Account, s: System, step: Step)
    requires Safe(acct, s) && AllDecidedByScans(acct, s)
    requires Enabled(acct, s, step) && Guarded(s, step) && InTime(ADD_INTERVAL_MS - 1, s, step)
    ensures !Ties(s, step)
  {
    if step.StoreTrade? {
      var w := step.w;
      StoreTradeEndsScanning(acct, s, w, step.result);
      var p := s.phases[w];
      assert ViewIsGood(s, w) && DecidedByScan(acct, s.now, p);
      WrittenTradeIsStamped(acct, s, w);
      ShortScanExtendsLadder(acct, p.seen, s.book, p.input, p.decision, p.trade);
      assert forall x | x in OpenTrades(s.book) :: x in multiset(OpenTrades(s.book));
    }
  }

  lemma ShortScansKeepLadder(acct: Account, ss: seq<System>, steps: seq<Step>, i: nat)
    requires IsGuardedRun(acct, ss, steps) && IsRunWithin(acct, ADD_INTERVAL_MS - 1, ss, steps) && i < |ss|
    requires acct.startingCapital >= 0.0
    ensures HasLadder(ss[i])
  {
    forall n | 0 <= n < |steps|
      ensures !Ties(ss[n], steps[n])
    {
      SafeInGuardedRun(acct, ss, steps, n);
      DecidedByScansInRun(acct, ss, steps, n);
      ShortScansDoNotTie(acct, ss[n], steps[n]);
    }
    OnLadderInRun(acct, ss, steps, i);
  }

  /** So in runs with scans of less than 30 minutes any two open trades of one instrument are a rung
      apart, in the order they were placed, the later one no weaker in agreement. */
  lemma LadderHoldsWithShortScans(acct: Account, ss: seq<System>, steps: seq<Step>, i: nat, j: nat, k: nat)
    requires IsGuardedRun(acct, ss, steps) && IsRunWithin(acct, ADD_INTERVAL_MS - 1, ss, steps) && i < |ss|
    requires acct.startingCapital >= 0.0
    requires j < k < |OpenTrades(ss[i].book)| && OpenTrades(ss[i].book)[j].symbol == OpenTrades(ss[i].book)[k].symbol
    ensures var x, y := OpenTrades(ss[i].book)[j], OpenTrades(ss[i].book)[k];
            && x.confidence.Some? && y.confidence.Some? && x.agreement.Some? && y.agreement.Some?
            && x.timestamp != y.timestamp
            && (x.timestamp < y.timestamp ==>
                  && y.confidence.value >= x.confidence.value + 5.0
                  && NoWeaker(y.agreement.value, x.agreement.value))
            && (x.timestamp > y.timestamp ==>
                  && x.confidence.value >= y.confidence.value + 5.0
                  && NoWeaker(x.agreement.value, y.agreement.value))
  {
    ShortScansKeepLadder(acct, ss, steps, i);
    LadderByPosition(OpenTrades(ss[i].book), j, k);
  }

  /** In every state of any run without ties, an instrument with `k` open trades has one with a
      confidence of at least 75 + 5 (k - 1): every add raised it. */
  lemma LadderHeightInRuns(acct: Account, ss: seq<System>, steps: seq<Step>, i: nat, symbol: string)
    returns (top: PaperTrade)
    requires IsGuardedRun(acct, ss, steps) && i < |ss| && acct.startingCapital >= 0.0
    requires forall k | 0 <= k < i :: !Ties(ss[k], steps[k])
    requires Count(acct, InInstrument(symbol), OpenTrades(ss[i].book)) > 0
    ensures top in OpenTrades(ss[i].book) && top.symbol == symbol && top.confidence.Some?
    ensures var k := Count(acct, InInstrument(symbol), OpenTrades(ss[i].book));
            top.confidence.value >= 75.0 + (k - 1) as real * 5.0
  {
    SafeInGuardedRun(acct, ss, steps, i);
    OnLadderInRun(acct, ss, steps, i);
    OpenTradesMembers(ss[i].book);
    top := LadderHeightOfInstrument(acct, OpenTrades(ss[i].book), symbol);
  }
}
