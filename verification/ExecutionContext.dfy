/** One scan and its writes, as the worker runs them: load the trades, scan, then write the trade, the
    decision and the records in that order, giving up at the first write that is reported as failed. */
module ExecutionContext {
  import opened Trades
  import opened BotRunner
  import opened DecisionRecords
  import opened WorkerSystem
  import opened PersistenceOrder

  /** How the calls to the stores end. A failed write may still have been made. */
  datatype Fate = Fate(loads: bool, trade: WriteResult, decision: WriteResult, records: WriteResult)

  datatype BotScanResult = BotScanResult(decision: BotDecision, trade: Option<PaperTrade>)

  class ServerExecutionContext {
    const acct: Account
    var book: seq<PaperTrade>
    var decisions: seq<StoredDecision>
    var records: seq<DecisionRecord>
    var createdTradeRow: Option<nat>

    /** Nothing stored names a trade that is not. */
    ghost predicate Valid()
      reads this
    {
      && (forall sd | sd in decisions :: NamesStored(book, sd.decision, sd.tradeRow))
      && (forall r | r in records :: Backed(decisions, r))
      && (createdTradeRow.Some? ==> createdTradeRow.value < |book|)
    }

    constructor (acct: Account, book: seq<PaperTrade>)
      ensures Valid() && this.acct == acct && this.book == book && decisions == [] && records == [] &&
          createdTradeRow == None
    {
      this.acct, this.book := acct, book;
      decisions, records, createdTradeRow := [], [], None;
    }

    // The row is kept only once the store has answered.
    method PersistTrade(trade: PaperTrade, result: WriteResult) returns (ok: bool)
      requires Valid()
      modifies this`book, this`createdTradeRow
      ensures Valid() && ok == (result == Stored)
      ensures book == if result == Refused then old(book) else old(book) + [trade]
      ensures createdTradeRow == if ok then Some(|old(book)|) else old(createdTradeRow)
    {
      ghost var before := book;
      ok := result == Stored;
      if ok { createdTradeRow := Some(|book|); }
      if result != Refused { book := book + [trade]; }
      assert forall k | 0 <= k < |before| :: book[k] == before[k];
    }

    method PersistDecision(decision: BotDecision, result: WriteResult) returns (ok: bool)
      requires Valid()
      modifies this`decisions
      ensures ok == (result == Stored)
      ensures Valid() <==> result == Refused || NamesStored(book, decision, createdTradeRow)
      ensures decisions == if result == Refused then old(decisions)
          else old(decisions) + [StoredDecision(decision, createdTradeRow)]
    {
      ghost var before := decisions;
      ok := result == Stored;
      if result != Refused {
        decisions := decisions + [StoredDecision(decision, createdTradeRow)];
        assert decisions[|before|] in decisions;
      }
      BackedStays(before, decisions, records);
    }

    method PersistDecisionRecords(rs: seq<DecisionRecord>, result: WriteResult) returns (ok: bool)
      requires Valid()
      modifies this`records
      ensures ok == (result == Stored)
      ensures Valid() <==> result == Refused || forall r | r in rs :: Backed(decisions, r)
      ensures records == if result == Refused then old(records) else old(records) + rs
    {
      ok := result == Stored;
      if result != Refused { records := records + rs; }
    }
  }

  lemma BackedStays(before: seq<StoredDecision>, after: seq<StoredDecision>, records: seq<DecisionRecord>)
    requires before <= after && forall r | r in records :: Backed(before, r)
    ensures forall r | r in records :: Backed(after, r)
  {
    forall r | r in records
      ensures Backed(after, r)
    {
      var k :| 0 <= k < |before| && before[k].decision.id == r.sourceDecisionId
               && (r.createdTradeId.Some? ==> r.createdTradeId == before[k].decision.createdTradeId);
      assert after[k] == before[k];
    }
  }

  lemma NewRecordsAreBacked(acct: Account, before: seq<StoredDecision>, d: BotDecision, row: Option<nat>)
    ensures forall r | r in BuildDecisionRecords(acct, d) :: Backed(before + [StoredDecision(d, row)], r)
  {
    assert (before + [StoredDecision(d, row)])[|before|].decision == d;
  }

  function Written<T>(reached: bool, result: WriteResult, items: seq<T>): seq<T> {
    if reached && result != Refused then items else []
  }

  function Listed(t: Option<PaperTrade>): seq<PaperTrade> {
    if t.Some? then [t.value] else []
  }

  // ---- The writes as steps of a worker -----------------------------------------------------------

  /** The stores are those of the system. */
  ghost predicate Mirrors(context: ServerExecutionContext, s: System)
    reads context
  {
    context.book == s.book && context.decisions == s.decisions && context.records == s.records
  }

  /** The steps that writing a scan comes to: each only after those before it were reported done. */
  function WriteSteps(w: WorkerId, trade: bool, fate: Fate): seq<Step> {
    if trade then [StoreTrade(w, fate.trade)] + (if fate.trade == Stored then LaterSteps(w, fate) else [])
    else LaterSteps(w, fate)
  }

  function LaterSteps(w: WorkerId, fate: Fate): seq<Step> {
    [StoreDecision(w, fate.decision)] + (if fate.decision == Stored then [StoreRecords(w, fate.records)] else [])
  }

  lemma TradeStep(acct: Account, s: System, w: WorkerId, result: WriteResult)
    requires s.PhaseOf(w).Decided? && s.PhaseOf(w).trade.Some?
    ensures Enabled(acct, s, StoreTrade(w, result))
    ensures var p := s.PhaseOf(w);
            After(acct, s, StoreTrade(w, result)) ==
            s.(book := s.book + Written(true, result, [p.trade.value]),
               phases := s.phases[w := if result == Stored then TradeSettled(p.decision, Some(|s.book|)) else Finished])
  {
    assert s.book + [] == s.book;
  }

  lemma DecisionStep(acct: Account, s: System, w: WorkerId, d: BotDecision, row: Option<nat>, result: WriteResult)
    requires var p := s.PhaseOf(w);
             p == TradeSettled(d, row) || (p.Decided? && p.trade == None && p.decision == d && row == None)
    ensures Enabled(acct, s, StoreDecision(w, result))
    ensures After(acct, s, StoreDecision(w, result)) ==
            s.(decisions := s.decisions + Written(true, result, [StoredDecision(d, row)]),
               phases := s.phases[w := if result == Stored then DecisionSettled(d) else Finished])
  {
    assert s.decisions + [] == s.decisions;
  }

  lemma RecordsStep(acct: Account, s: System, w: WorkerId, d: BotDecision, result: WriteResult)
    requires s.PhaseOf(w) == DecisionSettled(d)
    ensures Enabled(acct, s, StoreRecords(w, result))
    ensures After(acct, s, StoreRecords(w, result)) ==
            s.(records := s.records + Written(true, result, BuildDecisionRecords(acct, d)),
               phases := s.phases[w := Finished])
  {
    assert s.records + [] == s.records;
  }

  /** Where a worker stands once its trade, if there is one, is written. */
  ghost predicate TradeIsDone(p: Phase, d: BotDecision, row: Option<nat>) {
    p == TradeSettled(d, row) || (p.Decided? && p.trade == None && p.decision == d && row == None)
  }

  /** The decision and the records. */
  method PersistLater(context: ServerExecutionContext, d: BotDecision, fate: Fate, ghost w: WorkerId, ghost s: System)
    returns (ok: bool, ghost s': System)
    requires context.Valid() && Mirrors(context, s) && NamesStored(context.book, d, context.createdTradeRow)
    requires TradeIsDone(s.PhaseOf(w), d, context.createdTradeRow)
    modifies context`decisions, context`records
    ensures context.Valid() && ok == (fate.decision == Stored && fate.records == Stored)
    ensures context.decisions ==
            old(context.decisions) + Written(true, fate.decision, [StoredDecision(d, context.createdTradeRow)])
    ensures context.records ==
            old(context.records) + Written(fate.decision == Stored, fate.records, BuildDecisionRecords(context.acct, d))
    ensures Reached(context.acct, s, LaterSteps(w, fate)) == Some(s')
    ensures Mirrors(context, s') && s'.PhaseOf(w) == Finished
  {
    ghost var acct, before := context.acct, context.decisions;
    ok := context.PersistDecision(d, fate.decision);
    DecisionStep(acct, s, w, d, context.createdTradeRow, fate.decision);
    ReachedByOne(acct, s, StoreDecision(w, fate.decision));
    s' := After(acct, s, StoreDecision(w, fate.decision));
    if !ok { return; }
    NewRecordsAreBacked(context.acct, before, d, context.createdTradeRow);
    ok := context.PersistDecisionRecords(BuildDecisionRecords(context.acct, d), fate.records);
    RecordsStep(acct, s', w, d, fate.records);
    ReachedByOne(acct, s', StoreRecords(w, fate.records));
    ReachedThen(acct, s, [StoreDecision(w, fate.decision)], s', [StoreRecords(w, fate.records)]);
    s' := After(acct, s', StoreRecords(w, fate.records));
  }

  /** The three writes of a scan. Each is reached only when those before it are reported as done; they
      are the steps of a worker that has decided. */
  method Persist(context: ServerExecutionContext, scan: BotScanResult, fate: Fate, ghost w: WorkerId, ghost s: System)
    returns (ok: bool, ghost s': System)
    requires context.Valid() && context.createdTradeRow == None && Mirrors(context, s)
    requires scan.decision.createdTradeId == (if scan.trade.Some? then Some(scan.trade.value.id) else None)
    requires var p := s.PhaseOf(w); p.Decided? && p.decision == scan.decision && p.trade == scan.trade
    modifies context`book, context`decisions, context`records, context`createdTradeRow
    ensures context.Valid()
    ensures context.book == old(context.book) + Written(true, fate.trade, Listed(scan.trade))
    ensures var traded := scan.trade.Some? ==> fate.trade == Stored;
            var row := if scan.trade.Some? then Some(|old(context.book)|) else None;
            && context.decisions ==
               old(context.decisions) + Written(traded, fate.decision, [StoredDecision(scan.decision, row)])
            && context.records ==
               old(context.records) + Written(traded && fate.decision == Stored, fate.records,
                                              BuildDecisionRecords(context.acct, scan.decision))
            && ok == (traded && fate.decision == Stored && fate.records == Stored)
    ensures Reached(context.acct, s, WriteSteps(w, scan.trade.Some?, fate)) == Some(s')
    ensures Mirrors(context, s') && s'.PhaseOf(w) == Finished
  {
    if scan.trade.None? {
      ok, s' := PersistLater(context, scan.decision, fate, w, s);
      return;
    }
    ok := context.PersistTrade(scan.trade.value, fate.trade);
    ghost var step := StoreTrade(w, fate.trade);
    TradeStep(context.acct, s, w, fate.trade);
    ReachedByOne(context.acct, s, step);
    ghost var m := After(context.acct, s, step);
    s' := m;
    if ok {
      ok, s' := PersistLater(context, scan.decision, fate, w, m);
      ReachedThen(context.acct, s, [step], m, LaterSteps(w, fate));
    } else {
      assert [step] + [] == [step];
    }
  }

  function LoadAndScan(w: WorkerId, seen: seq<PaperTrade>, until: int, input: ScanInput,
                       scan: BotScanResult): seq<Step> {
    [Load(w, seen)] + [Tick(until)] + [Scan(w, input, scan.decision, scan.trade)]
  }

  lemma LoadedState(acct: Account, s: System, w: WorkerId, seen: seq<PaperTrade>, until: int)
    requires s.PhaseOf(w).Claimed? && multiset(seen) == multiset(s.book) && s.now <= until
    ensures Reached(acct, s, [Load(w, seen)] + [Tick(until)]) ==
            Some(s.(now := until, phases := s.phases[w := Loaded(s.PhaseOf(w).since, seen)]))
  {
    var m := After(acct, s, Load(w, seen));
    ReachedByOne(acct, s, Load(w, seen));
    ReachedByOne(acct, m, Tick(until));
    ReachedThen(acct, s, [Load(w, seen)], m, [Tick(until)]);
  }

  lemma DecidedState(acct: Account, s: System, w: WorkerId, seen: seq<PaperTrade>, until: int, input: ScanInput,
                     scan: BotScanResult)
    returns (s': System)
    requires s.PhaseOf(w).Claimed? && multiset(seen) == multiset(s.book) && s.now <= until
    requires IsScan(acct, seen, input, scan.decision, scan.trade) && ClockedIn(input, s.PhaseOf(w).since, until)
    ensures Reached(acct, s, LoadAndScan(w, seen, until, input, scan)) == Some(s')
    ensures s'.PhaseOf(w) == Decided(s.PhaseOf(w).since, seen, input, scan.decision, scan.trade)
    ensures s'.book == s.book && s'.decisions == s.decisions && s'.records == s.records
  {
    var m := s.(now := until, phases := s.phases[w := Loaded(s.PhaseOf(w).since, seen)]);
    var step := Scan(w, input, scan.decision, scan.trade);
    LoadedState(acct, s, w, seen, until);
    ReachedByOne(acct, m, step);
    ReachedThen(acct, s, [Load(w, seen)] + [Tick(until)], m, [step]);
    s' := After(acct, m, step);
  }

  lemma ScanNamesItsTrade(acct: Account, seen: seq<PaperTrade>, input: ScanInput, scan: BotScanResult)
    requires IsScan(acct, seen, input, scan.decision, scan.trade)
    ensures scan.decision.createdTradeId == (if scan.trade.Some? then Some(scan.trade.value.id) else None)
  {
  }

  /** Runs a scan over the trades loaded and writes what it decided. Whatever fails, what is written is
      what a scan of the loaded trades decides, in order, without a gap: no decision is written unless
      its trade is, no record unless its decision is; and the caller gets a result only if all was
      written. All of it is steps of a worker that has claimed. The context is a new one: its row is not
      that of an earlier trade. The scan ends at the instant `until`. */
  method ExecuteBotScan(context: ServerExecutionContext, seen: seq<PaperTrade>, input: ScanInput, fate: Fate,
                        ghost w: WorkerId, ghost s: System, ghost until: int)
    returns (result: Option<BotScanResult>, ghost scan: Option<BotScanResult>, ghost s': System)
    requires context.Valid() && context.createdTradeRow == None && multiset(seen) == multiset(context.book)
    requires Mirrors(context, s) && s.PhaseOf(w).Claimed?
    requires s.now <= until && ClockedIn(input, s.PhaseOf(w).since, until)
    modifies context`book, context`decisions, context`records, context`createdTradeRow
    ensures context.Valid() && (scan.Some? <==> fate.loads)
    ensures scan.None? ==>
              && result == None
              && context.book == old(context.book) && context.decisions == old(context.decisions)
              && context.records == old(context.records)
              && Reached(context.acct, s, [Fail(w)]) == Some(s')
    ensures scan.Some? ==>
              var (decision, trade) := (scan.value.decision, scan.value.trade);
              var traded := trade.Some? ==> fate.trade == Stored;
              var row := if trade.Some? then Some(|old(context.book)|) else None;
              && IsScan(context.acct, seen, input, decision, trade)
              && context.book == old(context.book) + Written(true, fate.trade, Listed(trade))
              && context.decisions ==
                 old(context.decisions) + Written(traded, fate.decision, [StoredDecision(decision, row)])
              && context.records ==
                 old(context.records) + Written(traded && fate.decision == Stored, fate.records,
                                                BuildDecisionRecords(context.acct, decision))
              && result == (if traded && fate.decision == Stored && fate.records == Stored then scan else None)
              && Reached(context.acct, s, LoadAndScan(w, seen, until, input, scan.value)
                                          + WriteSteps(w, trade.Some?, fate)) == Some(s')
    ensures Mirrors(context, s') && s'.PhaseOf(w) == Finished
  {
    result, scan := None, None;
    if !fate.loads {
      ReachedByOne(context.acct, s, Fail(w));
      s' := After(context.acct, s, Fail(w));
      return;
    }
    var decision, trade := RunBotScan(context.acct, seen, input);
    var found := BotScanResult(decision, trade);
    scan := Some(found);
    ScanNamesItsTrade(context.acct, seen, input, found);
    ghost var m := DecidedState(context.acct, s, w, seen, until, input, found);
    var ok;
    ok, s' := Persist(context, found, fate, w, m);
    ReachedThen(context.acct, s, LoadAndScan(w, seen, until, input, found), m, WriteSteps(w, trade.Some?, fate));
    if ok { result := Some(found); }
  }
}
