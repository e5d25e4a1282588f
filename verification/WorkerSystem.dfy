/** One user's schedule, book and history, worked on by any number of workers whose steps interleave
    freely with each other, with the user closing trades, with failing writes and with crashes. */
module WorkerSystem {
  import opened Trades
  import opened BotRunner
  import opened DecisionRecords
  import opened BookLimits

  const LOCK_TIMEOUT_MS := 5 * 60 * 1000

  type WorkerId = nat

  datatype Lock = Free | Held(holder: WorkerId, since: int)

  /** How a write ended: done, refused, or done although the caller was told it failed. */
  datatype WriteResult = Stored | Refused | StoredThenFailed

  datatype Phase =
    | Idle
    | Claimed(since: int)
    | Loaded(since: int, seen: seq<PaperTrade>)
    | Decided(since: int, seen: seq<PaperTrade>, input: ScanInput, decision: BotDecision, trade: Option<PaperTrade>)
    | TradeSettled(decision: BotDecision, row: Option<nat>)
    | DecisionSettled(decision: BotDecision)
    | Finished
  {
    /** Between taking the lock and writing the trade. */
    predicate Scanning() { Claimed? || Loaded? || Decided? }
  }

  datatype StoredDecision = StoredDecision(decision: BotDecision, tradeRow: Option<nat>)

  /** `book` only grows; a trade's row number is its place in it. */
  datatype System = System(
    now: int,
    book: seq<PaperTrade>,
    lock: Lock,
    phases: map<WorkerId, Phase>,
    decisions: seq<StoredDecision>,
    records: seq<DecisionRecord>)
  {
    function PhaseOf(w: WorkerId): Phase { if w in phases then phases[w] else Idle }

    function Move(w: WorkerId, p: Phase): System { this.(phases := phases[w := p]) }
  }

  datatype Step =
    | Tick(to: int)
    | CloseTrade(row: nat, exitPrice: real)
    | Claim(w: WorkerId)
    | Load(w: WorkerId, seen: seq<PaperTrade>)
    | Scan(w: WorkerId, input: ScanInput, decision: BotDecision, trade: Option<PaperTrade>)
    | StoreTrade(w: WorkerId, result: WriteResult)
    | StoreDecision(w: WorkerId, result: WriteResult)
    | StoreRecords(w: WorkerId, result: WriteResult)
    | Fail(w: WorkerId)
    | Release(w: WorkerId, acknowledged: bool)
    | Crash(w: WorkerId)

  // ---- The steps --------------------------------------------------------------------------------

  // Free, or locked more than five minutes ago.
  predicate Claimable(l: Lock, now: int) { l.Free? || l.since < now - LOCK_TIMEOUT_MS }

  function PnlDirection(t: PaperTrade, mark: real): real {
    if t.side == Sell then t.entryPrice - mark else mark - t.entryPrice
  }

  function BuildClosedTrade(t: PaperTrade, exitPrice: real, now: int): PaperTrade {
    t.(status := Closed,
       closedAt := Some(now),
       realisedPnl := Some(PnlDirection(t, exitPrice) * t.quantity as real),
       realisedPnlPercent := Some(if t.entryPrice == 0.0 then 0.0
                                  else PnlDirection(t, exitPrice) / t.entryPrice * 100.0))
  }

  /** A scan starts after its claim, and its clock readings lie between its start and the present. */
  ghost predicate ClockedIn(input: ScanInput, since: int, now: int) {
    && since <= input.startedAt <= now
    && forall i: nat :: input.startedAt <= input.readings(i).checkedAt <= now
  }

  ghost predicate Enabled(acct: Account, s: System, step: Step) {
    match step
    case Tick(to) => s.now <= to
    case CloseTrade(row, _) => row < |s.book| && s.book[row].status == Open
    case Claim(w) => s.PhaseOf(w).Idle? && Claimable(s.lock, s.now)
    case Load(w, seen) => s.PhaseOf(w).Claimed? && multiset(seen) == multiset(s.book)
    case Scan(w, input, d, trade) =>
      var p := s.PhaseOf(w);
      p.Loaded? && IsScan(acct, p.seen, input, d, trade) && ClockedIn(input, p.since, s.now)
    case StoreTrade(w, _) => s.PhaseOf(w).Decided? && s.PhaseOf(w).trade.Some?
    case StoreDecision(w, _) => s.PhaseOf(w).TradeSettled? || (s.PhaseOf(w).Decided? && s.PhaseOf(w).trade.None?)
    case StoreRecords(w, _) => s.PhaseOf(w).DecisionSettled?
    case Fail(w) => !s.PhaseOf(w).Idle?
    case Release(w, _) => s.PhaseOf(w).Finished?
    case Crash(_) => true
  }

  function Unlocked(l: Lock, w: WorkerId): Lock { if l.Held? && l.holder == w then Free else l }

  ghost function After(acct: Account, s: System, step: Step): System
    requires Enabled(acct, s, step)
  {
    match step
    case Tick(to) => s.(now := to)
    case CloseTrade(row, exitPrice) => s.(book := s.book[row := BuildClosedTrade(s.book[row], exitPrice, s.now)])
    case Claim(w) => s.(lock := Held(w, s.now)).Move(w, Claimed(s.now))
    case Load(w, seen) => s.Move(w, Loaded(s.PhaseOf(w).since, seen))
    case Scan(w, input, d, trade) => s.Move(w, Decided(s.PhaseOf(w).since, s.PhaseOf(w).seen, input, d, trade))
    case StoreTrade(w, result) =>
      var p := s.PhaseOf(w);
      if result == Refused then s.Move(w, Finished)
      else
        var t := s.(book := s.book + [p.trade.value]);
        t.Move(w, if result == Stored then TradeSettled(p.decision, Some(|s.book|)) else Finished)
    case StoreDecision(w, result) =>
      var p := s.PhaseOf(w);
      if result == Refused then s.Move(w, Finished)
      else
        var row := if p.TradeSettled? then p.row else None;
        var t := s.(decisions := s.decisions + [StoredDecision(p.decision, row)]);
        t.Move(w, if result == Stored then DecisionSettled(p.decision) else Finished)
    case StoreRecords(w, result) =>
      var p := s.PhaseOf(w);
      if result == Refused then s.Move(w, Finished)
      else s.(records := s.records + BuildDecisionRecords(acct, p.decision)).Move(w, Finished)
    case Fail(w) => s.Move(w, Finished)
    case Release(w, acknowledged) => s.(lock := Unlocked(s.lock, w)).Move(w, if acknowledged then Idle else Finished)
    case Crash(w) => s.Move(w, Idle)
  }

  // ---- Runs -------------------------------------------------------------------------------------

  ghost predicate Initial(s: System) {
    s.book == [] && s.lock == Free && s.phases == map[] && s.decisions == [] && s.records == []
  }

  ghost predicate IsRun(acct: Account, ss: seq<System>, steps: seq<Step>) {
    && |ss| == |steps| + 1
    && Initial(ss[0])
    && forall i | 0 <= i < |steps| :: Enabled(acct, ss[i], steps[i]) && ss[i + 1] == After(acct, ss[i], steps[i])
  }

  lemma StepOfRun(acct: Account, ss: seq<System>, steps: seq<Step>, i: nat)
    requires IsRun(acct, ss, steps) && 0 < i < |ss|
    ensures Enabled(acct, ss[i - 1], steps[i - 1]) && ss[i] == After(acct, ss[i - 1], steps[i - 1])
  {
    assert ss[i - 1 + 1] == ss[i];
  }

  lemma RunOneMore(acct: Account, ss: seq<System>, steps: seq<Step>, step: Step)
    requires IsRun(acct, ss, steps) && Enabled(acct, ss[|steps|], step)
    ensures IsRun(acct, ss + [After(acct, ss[|steps|], step)], steps + [step])
  {
    var longer, more := ss + [After(acct, ss[|steps|], step)], steps + [step];
    assert longer[0] == ss[0];
    forall i | 0 <= i < |more|
      ensures Enabled(acct, longer[i], more[i]) && longer[i + 1] == After(acct, longer[i], more[i])
    {
      assert i < |steps| ==> longer[i] == ss[i] && more[i] == steps[i] && longer[i + 1] == ss[i + 1];
    }
  }

  /** The state that the steps lead to, if each is possible when its turn comes. */
  ghost function Reached(acct: Account, s: System, steps: seq<Step>): Option<System> {
    if steps == [] then Some(s)
    else
      var before, step := Reached(acct, s, steps[..|steps| - 1]), steps[|steps| - 1];
      if before.Some? && Enabled(acct, before.value, step) then Some(After(acct, before.value, step)) else None
  }

  lemma ReachedByOne(acct: Account, s: System, step: Step)
    requires Enabled(acct, s, step)
    ensures Reached(acct, s, [step]) == Some(After(acct, s, step))
  {
    assert [step][..0] == [];
  }

  lemma {:induction false} ReachedThen(acct: Account, s: System, first: seq<Step>, m: System, rest: seq<Step>)
    requires Reached(acct, s, first) == Some(m)
    ensures Reached(acct, s, first + rest) == Reached(acct, m, rest)
  {
    if rest == [] {
      assert first + rest == first;
    } else {
      ReachedThen(acct, s, first, m, rest[..|rest| - 1]);
      assert (first + rest)[..|first + rest| - 1] == first + rest[..|rest| - 1];
    }
  }

  /** If the step writes a trade, it does so at most `delay` after the claim. */
  predicate InTime(delay: int, s: System, step: Step) {
    step.StoreTrade? && s.PhaseOf(step.w).Scanning() ==> s.now - s.PhaseOf(step.w).since <= delay
  }

  ghost predicate IsRunWithin(acct: Account, delay: int, ss: seq<System>, steps: seq<Step>) {
    IsRun(acct, ss, steps) && forall i | 0 <= i < |steps| :: InTime(delay, ss[i], steps[i])
  }

  lemma LongerDelayAllowsMore(acct: Account, ss: seq<System>, steps: seq<Step>, shorter: int, longer: int)
    requires IsRunWithin(acct, shorter, ss, steps) && shorter <= longer
    ensures IsRunWithin(acct, longer, ss, steps)
  {
    forall i | 0 <= i < |steps|
      ensures InTime(longer, ss[i], steps[i])
    {
      assert InTime(shorter, ss[i], steps[i]);
    }
  }

  /** If the step writes a trade, its worker still holds the lock it claimed. */
  predicate Guarded(s: System, step: Step) {
    step.StoreTrade? && s.PhaseOf(step.w).Scanning() ==> s.lock == Held(step.w, s.PhaseOf(step.w).since)
  }

  ghost predicate IsGuardedRun(acct: Account, ss: seq<System>, steps: seq<Step>) {
    IsRun(acct, ss, steps) && forall i | 0 <= i < |steps| :: Guarded(ss[i], steps[i])
  }

  // ---- The lock ---------------------------------------------------------------------------------

  /** A scan younger than the timeout still holds the lock. */
  ghost predicate LockHeld(s: System) {
    forall w | w in s.phases && s.phases[w].Scanning() ::
      && s.phases[w].since <= s.now
      && (s.now - s.phases[w].since <= LOCK_TIMEOUT_MS ==> s.lock == Held(w, s.phases[w].since))
  }

  lemma LockHeldIsKept(acct: Account, s: System, step: Step)
    requires LockHeld(s) && Enabled(acct, s, step)
    ensures LockHeld(After(acct, s, step))
  {
  }

  /** In every run whatsoever, two workers are never both scanning on a claim younger than five minutes. */
  lemma LiveScansExclude(acct: Account, ss: seq<System>, steps: seq<Step>, i: nat, v: WorkerId, w: WorkerId)
    requires IsRun(acct, ss, steps) && i < |ss|
    requires ss[i].PhaseOf(v).Scanning() && ss[i].now - ss[i].PhaseOf(v).since <= 300000
    requires ss[i].PhaseOf(w).Scanning() && ss[i].now - ss[i].PhaseOf(w).since <= 300000
    ensures v == w
  {
    LockHeldInRun(acct, ss, steps, i);
  }

  lemma {:induction false} LockHeldInRun(acct: Account, ss: seq<System>, steps: seq<Step>, i: nat)
    requires IsRun(acct, ss, steps) && i < |ss|
    ensures LockHeld(ss[i])
  {
    if i == 0 {
    } else {
      LockHeldInRun(acct, ss, steps, i - 1);
      StepOfRun(acct, ss, steps, i);
      LockHeldIsKept(acct, ss[i - 1], steps[i - 1]);
    }
  }

  /** Writing within the lock's lifetime is enough to hold the lock still. */
  lemma TimelyRunsAreGuarded(acct: Account, ss: seq<System>, steps: seq<Step>)
    requires IsRunWithin(acct, 300000, ss, steps)
    ensures IsGuardedRun(acct, ss, steps)
  {
    forall i | 0 <= i < |steps|
      ensures Guarded(ss[i], steps[i])
    {
      LockHeldInRun(acct, ss, steps, i);
      assert InTime(300000, ss[i], steps[i]);
    }
  }

  // ---- What every run keeps ---------------------------------------------------------------------

  /** What a worker has decided is what a scan of the trades it loaded decides. */
  ghost predicate DecidedByScan(acct: Account, now: int, p: Phase) {
    p.Decided? ==> IsScan(acct, p.seen, p.input, p.decision, p.trade) && ClockedIn(p.input, p.since, now)
  }

  ghost predicate AllDecidedByScans(acct: Account, s: System) {
    forall w | w in s.phases :: DecidedByScan(acct, s.now, s.phases[w])
  }

  lemma OnlyScansDecide(acct: Account, s: System, step: Step, w: WorkerId)
    requires Enabled(acct, s, step) && w in After(acct, s, step).phases && After(acct, s, step).phases[w].Decided?
    ensures s.now <= After(acct, s, step).now && w in s.phases
    ensures var p := After(acct, s, step).phases[w];
            p == s.phases[w] ||
            (step.Scan? && s.phases[w].Loaded?
             && p == Decided(s.phases[w].since, s.phases[w].seen, step.input, step.decision, step.trade))
  {
  }

  lemma ScanDecides(acct: Account, s: System, step: Step)
    requires step.Scan? && Enabled(acct, s, step)
    ensures DecidedByScan(acct, s.now, After(acct, s, step).phases[step.w])
  {
  }

  lemma StepKeepsDecidedByScans(acct: Account, s: System, step: Step)
    requires AllDecidedByScans(acct, s) && Enabled(acct, s, step)
    ensures AllDecidedByScans(acct, After(acct, s, step))
  {
    var s' := After(acct, s, step);
    forall w | w in s'.phases && s'.phases[w].Decided?
      ensures DecidedByScan(acct, s'.now, s'.phases[w])
    {
      OnlyScansDecide(acct, s, step, w);
      if s'.phases[w] == s.phases[w] {
        DecisionsAge(acct, s.now, s'.now, s.phases[w]);
      } else {
        ScanDecides(acct, s, step);
      }
    }
  }

  lemma DecisionsAge(acct: Account, now: int, later: int, p: Phase)
    requires DecidedByScan(acct, now, p) && now <= later
    ensures DecidedByScan(acct, later, p)
  {
  }

  lemma {:induction false} DecidedByScansInRun(acct: Account, ss: seq<System>, steps: seq<Step>, i: nat)
    requires IsRun(acct, ss, steps) && i < |ss|
    ensures AllDecidedByScans(acct, ss[i])
  {
    if i == 0 {
    } else {
      DecidedByScansInRun(acct, ss, steps, i - 1);
      StepOfRun(acct, ss, steps, i);
      StepKeepsDecidedByScans(acct, ss[i - 1], steps[i - 1]);
    }
  }

  // ---- The limits over guarded runs -------------------------------------------------------------

  predicate IsQuiet(step: Step) { !step.CloseTrade? && !step.Load? && !step.StoreTrade? }

  /** The worker holds the lock and has loaded the book. */
  predicate HasLoaded(s: System, w: WorkerId) {
    && w in s.phases && (s.phases[w].Loaded? || s.phases[w].Decided?)
    && s.lock == Held(w, s.phases[w].since)
  }

  /** What a worker that holds the lock knows about the book it loaded: trades may have been closed
      since, but none opened. */
  ghost predicate ViewIsGood(s: System, w: WorkerId)
    requires w in s.phases
  {
    HasLoaded(s, w) ==>
      && BotBook(s.phases[w].seen)
      && multiset(OpenTrades(s.book)) <= multiset(OpenTrades(s.phases[w].seen))
  }

  ghost predicate Safe(acct: Account, s: System) {
    LimitedBook(acct, s.book) && forall w | w in s.phases :: ViewIsGood(s, w)
  }

  lemma {:induction false} OpenMultiplicity(ts: seq<PaperTrade>, t: PaperTrade)
    ensures multiset(OpenTrades(ts))[t] == if t.status == Open then multiset(ts)[t] else 0
  {
    if ts == [] {
    } else {
      var init, last := ts[..|ts| - 1], ts[|ts| - 1];
      assert ts == init + [last];
      OpenMultiplicity(init, t);
    }
  }

  /** A listing in any order shows the same open trades. */
  lemma SameOpenTrades(a: seq<PaperTrade>, b: seq<PaperTrade>)
    requires multiset(a) == multiset(b)
    ensures multiset(OpenTrades(a)) == multiset(OpenTrades(b))
  {
    forall t
      ensures multiset(OpenTrades(a))[t] == multiset(OpenTrades(b))[t]
    {
      OpenMultiplicity(a, t);
      OpenMultiplicity(b, t);
    }
  }

  lemma CloseOnlyRemoves(book: seq<PaperTrade>, row: nat, closed: PaperTrade)
    requires row < |book| && closed.status == Closed
    ensures multiset(OpenTrades(book[row := closed])) <= multiset(OpenTrades(book))
  {
    forall t
      ensures multiset(OpenTrades(book[row := closed]))[t] <= multiset(OpenTrades(book))[t]
    {
      OpenMultiplicity(book, t);
      OpenMultiplicity(book[row := closed], t);
    }
  }

  predicate ClosingOf(t: PaperTrade, closed: PaperTrade) {
    && closed.status == Closed
    && closed.id == t.id && closed.source == t.source && closed.timestamp == t.timestamp
    && closed.confidence == t.confidence && closed.agreement == t.agreement
    && closed.quantity == t.quantity && closed.entryPrice == t.entryPrice
  }

  lemma CloseKeepsLimits(acct: Account, book: seq<PaperTrade>, row: nat, closed: PaperTrade)
    requires LimitedBook(acct, book) && row < |book| && ClosingOf(book[row], closed)
    ensures LimitedBook(acct, book[row := closed])
  {
    CloseOnlyRemoves(book, row, closed);
    CloseKeepsBotBook(book, row, closed);
    OpenTradesMembers(book);
    LimitsSurviveCloses(acct, OpenTrades(book[row := closed]), OpenTrades(book));
  }

  lemma CloseKeepsBotBook(book: seq<PaperTrade>, row: nat, closed: PaperTrade)
    requires BotBook(book) && row < |book| && ClosingOf(book[row], closed)
    ensures BotBook(book[row := closed])
  {
    assert book[row] in book;
    forall t | t in book[row := closed]
      ensures IsBotTrade(t)
    {
      if t != closed { assert t in book; }
    }
  }

  /** Every step of every worker, and every close, keeps the limits and the lock holder's view. */
  lemma StepKeepsSafe(acct: Account, s: System, step: Step)
    requires Safe(acct, s) && AllDecidedByScans(acct, s) && Enabled(acct, s, step) && Guarded(s, step)
    ensures Safe(acct, After(acct, s, step))
  {
    match step
    case CloseTrade(row, exitPrice) => CloseKeepsSafe(acct, s, row, exitPrice);
    case Load(w, seen) => LoadKeepsSafe(acct, s, w, seen);
    case StoreTrade(w, result) => StoreTradeKeepsSafe(acct, s, w, result);
    case _ => QuietStepKeepsSafe(acct, s, step);
  }

  /** The remaining steps leave the book alone and show it to no worker. */
  lemma QuietStepKeepsSafe(acct: Account, s: System, step: Step)
    requires Safe(acct, s) && Enabled(acct, s, step) && IsQuiet(step)
    ensures Safe(acct, After(acct, s, step))
  {
    var s' := After(acct, s, step);
    QuietStepKeepsBook(acct, s, step);
    forall v | HasLoaded(s', v)
      ensures ViewIsGood(s', v)
    {
      QuietStepShowsNothing(acct, s, step, v);
      assert ViewIsGood(s, v);
    }
  }

  lemma QuietStepShowsNothing(acct: Account, s: System, step: Step, v: WorkerId)
    requires Enabled(acct, s, step) && IsQuiet(step) && HasLoaded(After(acct, s, step), v)
    ensures HasLoaded(s, v) && After(acct, s, step).phases[v].seen == s.phases[v].seen
    ensures After(acct, s, step).phases[v].since == s.phases[v].since
  {
  }

  lemma QuietStepKeepsBook(acct: Account, s: System, step: Step)
    requires Enabled(acct, s, step) && IsQuiet(step)
    ensures After(acct, s, step).book == s.book
  {
  }

  lemma CloseKeepsSafe(acct: Account, s: System, row: nat, exitPrice: real)
    requires Safe(acct, s) && Enabled(acct, s, CloseTrade(row, exitPrice))
    ensures Safe(acct, After(acct, s, CloseTrade(row, exitPrice)))
  {
    var s' := After(acct, s, CloseTrade(row, exitPrice));
    CloseKeepsLimits(acct, s.book, row, s'.book[row]);
    CloseOnlyRemoves(s.book, row, s'.book[row]);
    forall w | w in s'.phases
      ensures ViewIsGood(s', w)
    {
      assert ViewIsGood(s, w);
    }
  }

  lemma LoadKeepsSafe(acct: Account, s: System, w: WorkerId, seen: seq<PaperTrade>)
    requires Safe(acct, s) && Enabled(acct, s, Load(w, seen))
    ensures Safe(acct, After(acct, s, Load(w, seen)))
  {
    var s' := After(acct, s, Load(w, seen));
    SameOpenTrades(s.book, seen);
    forall t | t in seen
      ensures IsBotTrade(t)
    {
      assert t in multiset(seen);
    }
    forall v | v in s'.phases
      ensures ViewIsGood(s', v)
    {
      assert v in s.phases ==> ViewIsGood(s, v);
    }
  }

  lemma StoreTradeKeepsSafe(acct: Account, s: System, w: WorkerId, result: WriteResult)
    requires Safe(acct, s) && AllDecidedByScans(acct, s)
    requires Enabled(acct, s, StoreTrade(w, result)) && Guarded(s, StoreTrade(w, result))
    ensures Safe(acct, After(acct, s, StoreTrade(w, result)))
  {
    StoreTradeEndsScanning(acct, s, w, result);
    StoreTradeKeepsLimits(acct, s, w);
    OthersKeepViews(s, After(acct, s, StoreTrade(w, result)), w);
  }

  lemma StoreTradeEndsScanning(acct: Account, s: System, w: WorkerId, result: WriteResult)
    requires Enabled(acct, s, StoreTrade(w, result))
    ensures w in s.phases && s.phases[w].Decided? && s.phases[w].trade.Some?
    ensures var s' := After(acct, s, StoreTrade(w, result));
            && s'.now == s.now && s'.lock == s.lock
            && s'.book == (if result == Refused then s.book else s.book + [s.phases[w].trade.value])
            && w in s'.phases && !s'.phases[w].Scanning() && s'.phases == s.phases[w := s'.phases[w]]
  {
  }

  // Whoever does not hold the lock is promised nothing about the present book.
  lemma OthersKeepViews(s: System, s': System, w: WorkerId)
    requires forall v | v in s.phases :: ViewIsGood(s, v)
    requires s.lock.Held? && s.lock.holder == w && s'.lock == s.lock
    requires w in s'.phases && !s'.phases[w].Scanning() && s'.phases == s.phases[w := s'.phases[w]]
    ensures forall v | v in s'.phases :: ViewIsGood(s', v)
  {
  }

  lemma StoreTradeKeepsLimits(acct: Account, s: System, w: WorkerId)
    requires Safe(acct, s) && AllDecidedByScans(acct, s)
    requires w in s.phases && s.phases[w].Decided? && s.phases[w].trade.Some?
    requires s.lock == Held(w, s.phases[w].since)
    ensures LimitedBook(acct, s.book + [s.phases[w].trade.value])
  {
    var p := s.phases[w];
    assert ViewIsGood(s, w) && DecidedByScan(acct, s.now, p);
    ScanKeepsLimits(acct, p.seen, s.book, p.input, p.decision, p.trade);
  }

  lemma {:induction false} SafeInGuardedRun(acct: Account, ss: seq<System>, steps: seq<Step>, i: nat)
    requires IsGuardedRun(acct, ss, steps) && i < |ss| && acct.startingCapital >= 0.0
    ensures Safe(acct, ss[i])
  {
    if i == 0 {
    } else {
      SafeInGuardedRun(acct, ss, steps, i - 1);
      DecidedByScansInRun(acct, ss, steps, i - 1);
      StepKeepsSafe(acct, ss[i - 1], steps[i - 1]);
    }
  }

  /** Whatever the interleaving of any number of workers, with users closing trades, writes failing
      and workers crashing: as long as every trade is written by a worker that still holds the lock it
      claimed, every state has at most 5 open trades, 60% of starting capital deployed, 30% and 3
      trades per sector, 4 trades per side, and each instrument's open trades are on one side and
      worth at most 750. */
  lemma LimitsHoldInGuardedRuns(acct: Account, ss: seq<System>, steps: seq<Step>, i: nat)
    requires IsGuardedRun(acct, ss, steps) && i < |ss| && acct.startingCapital >= 0.0
    ensures WithinLimits(acct, OpenTrades(ss[i].book))
  {
    SafeInGuardedRun(acct, ss, steps, i);
  }

  /** The limits hold in particular when every trade is written within five minutes of its claim. */
  lemma LimitsHoldInTimelyRuns(acct: Account, ss: seq<System>, steps: seq<Step>, i: nat)
    requires IsRunWithin(acct, 300000, ss, steps) && i < |ss| && acct.startingCapital >= 0.0
    ensures WithinLimits(acct, OpenTrades(ss[i].book))
  {
    TimelyRunsAreGuarded(acct, ss, steps);
    LimitsHoldInGuardedRuns(acct, ss, steps, i);
  }
}
