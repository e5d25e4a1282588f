/** The places a decision history is kept: database rows updated one statement at a time, and a local
    list capped at 500 entries. Both agree with one plain list of records. */
module DecisionStores {
  import opened Trades
  import opened BotRunner
  import opened DecisionRecords
  import opened OutcomeAnalysis

  // ---- Database rows ----------------------------------------------------------------------------

  /** A row of decision_history; `None` is SQL null. */
  datatype DecisionHistoryRow = DecisionHistoryRow(
    userId: string,
    clientRecordId: string,
    version: int,
    scanId: string,
    sourceDecisionId: string,
    decidedAt: int,
    triggerType: Trigger,
    rank: int,
    instrumentSymbol: string,
    instrumentName: string,
    sector: string,
    side: Side,
    entryPrice: Option<real>,
    strategyUsed: string,
    agreement: Agreement,
    confidence: real,
    evidenceSummary: string,
    deployedCapital: real,
    availableCash: real,
    sectorExposure: real,
    totalOpenTrades: int,
    tradeOpened: bool,
    rejectionReason: Option<Rejection>,
    positionAction: Option<PositionAction>,
    portfolioRiskResult: PortfolioRiskResult,
    outcome: Outcome,
    createdTradeId: Option<string>,
    realisedPnl: Option<real>,
    realisedPnlPercent: Option<real>,
    holdingDurationMinutes: Option<int>,
    closedAt: Option<int>,
    outcomeRecordedAt: Option<int>,
    dataProvenance: Option<Provenance>)

  function ToDbDecisionRecord(userId: string, r: DecisionRecord): DecisionHistoryRow {
    DecisionHistoryRow(
      userId, r.id, r.version, r.scanId, r.sourceDecisionId, r.timestamp, r.trigger, r.rank, r.symbol,
      r.instrumentName, r.sector,
      r.side, r.entryPrice, r.strategyUsed, r.agreement, r.confidence, r.evidenceSummary, r.deployedCapital,
      r.availableCash,
      r.sectorExposure, r.totalOpenTrades, r.tradeOpened, r.rejection, r.positionAction, r.portfolioRisk, r.outcome,
      r.createdTradeId, r.realisedPnl, r.realisedPnlPercent, r.holdingMinutes, r.closedAt, r.outcomeRecordedAt,
      Some(r.provenance))
  }

  /** A row from before the provenance column reads as sample data. */
  function FromDbDecisionRecord(row: DecisionHistoryRow): (r: DecisionRecord)
    ensures row.dataProvenance == None ==> r.provenance == SampleData
  {
    DecisionRecord(
      row.version, row.clientRecordId, row.scanId, row.sourceDecisionId, row.decidedAt, row.triggerType, row.rank,
      row.instrumentSymbol, row.instrumentName, row.sector, row.side, row.entryPrice, row.strategyUsed, row.agreement,
      row.confidence, row.evidenceSummary, row.deployedCapital, row.availableCash, row.sectorExposure,
      row.totalOpenTrades,
      row.tradeOpened, row.rejectionReason, row.positionAction, row.portfolioRiskResult, row.outcome,
      row.createdTradeId,
      row.realisedPnl, row.realisedPnlPercent, row.holdingDurationMinutes, row.closedAt, row.outcomeRecordedAt,
      if row.dataProvenance.Some? then row.dataProvenance.value else SampleData)
  }

  /** The records one user reads back. */
  function LoadFor(rows: seq<DecisionHistoryRow>, userId: string): seq<DecisionRecord> {
    if rows == [] then []
    else if rows[|rows| - 1].userId == userId then
      LoadFor(rows[..|rows| - 1], userId) + [FromDbDecisionRecord(rows[|rows| - 1])]
    else LoadFor(rows[..|rows| - 1], userId)
  }

  /** UPDATE decision_history SET ... WHERE client_record_id = u.recordId AND user_id = userId. */
  function UpdatedRow(row: DecisionHistoryRow, userId: string, u: OutcomeUpdate): DecisionHistoryRow {
    if row.clientRecordId == u.recordId && row.userId == userId then
      row.(outcome := u.outcome, realisedPnl := Some(u.realisedPnl), realisedPnlPercent := Some(u.realisedPnlPercent),
           holdingDurationMinutes := Some(u.holdingMinutes), closedAt := Some(u.closedAt),
           outcomeRecordedAt := Some(u.outcomeRecordedAt))
    else row
  }

  function UpdateWhere(rows: seq<DecisionHistoryRow>, userId: string,
                       u: OutcomeUpdate): (after: seq<DecisionHistoryRow>)
    ensures |after| == |rows|
  {
    seq(|rows|, i requires 0 <= i < |rows| => UpdatedRow(rows[i], userId, u))
  }

  lemma {:induction false} StatementReadsBack(rows: seq<DecisionHistoryRow>, userId: string, u: OutcomeUpdate)
    ensures LoadFor(UpdateWhere(rows, userId, u), userId) == WriteRow(LoadFor(rows, userId), u)
  {
    if rows == [] {
    } else {
      var init, last := rows[..|rows| - 1], rows[|rows| - 1];
      StatementReadsBack(init, userId, u);
      var after := UpdateWhere(rows, userId, u);
      assert after[..|rows| - 1] == UpdateWhere(init, userId, u);
      assert after[|rows| - 1] == UpdatedRow(last, userId, u);
      if last.userId == userId {
        RowReadsBack(last, u);
        WriteRowOneMore(LoadFor(init, userId), FromDbDecisionRecord(last), u);
      }
    }
  }

  lemma RowReadsBack(row: DecisionHistoryRow, u: OutcomeUpdate)
    ensures FromDbDecisionRecord(UpdatedRow(row, row.userId, u)) == ApplyOutcomeUpdate(FromDbDecisionRecord(row), u)
  {
  }

  lemma WriteRowOneMore(records: seq<DecisionRecord>, r: DecisionRecord, u: OutcomeUpdate)
    ensures WriteRow(records + [r], u) == WriteRow(records, u) + [ApplyOutcomeUpdate(r, u)]
  {
  }

  function RowsFor(userId: string, records: seq<DecisionRecord>): seq<DecisionHistoryRow> {
    seq(|records|, i requires 0 <= i < |records| => ToDbDecisionRecord(userId, records[i]))
  }

  /** What is inserted is what is read back, after all that was there before. */
  lemma {:induction false} InsertReadsBack(rows: seq<DecisionHistoryRow>, userId: string, records: seq<DecisionRecord>)
    ensures LoadFor(rows + RowsFor(userId, records), userId) == LoadFor(rows, userId) + records
  {
    if records == [] {
      assert rows + RowsFor(userId, records) == rows;
    } else {
      var init, last := records[..|records| - 1], records[|records| - 1];
      InsertReadsBack(rows, userId, init);
      var longer := rows + RowsFor(userId, records);
      assert longer[..|longer| - 1] == rows + RowsFor(userId, init);
      assert longer[|longer| - 1] == ToDbDecisionRecord(userId, last);
      assert FromDbDecisionRecord(ToDbDecisionRecord(userId, last)) == last;
    }
  }

  /** The rows of the other users are as they were. */
  ghost predicate OthersKept(userId: string, before: seq<DecisionHistoryRow>, after: seq<DecisionHistoryRow>) {
    && |after| == |before|
    && (forall i | 0 <= i < |before| :: after[i].userId == before[i].userId)
    && (forall i | 0 <= i < |before| && before[i].userId != userId :: after[i] == before[i])
  }

  /** The updates have been written one after the other. */
  ghost predicate IsWritten(userId: string, before: seq<DecisionHistoryRow>, after: seq<DecisionHistoryRow>,
                            updates: seq<OutcomeUpdate>)
  {
    && LoadFor(after, userId) == WriteAll(LoadFor(before, userId), updates)
    && OthersKept(userId, before, after)
  }

  lemma NothingWritten(userId: string, rows: seq<DecisionHistoryRow>)
    ensures IsWritten(userId, rows, rows, [])
  {
  }

  lemma OneMoreStatement(userId: string, before: seq<DecisionHistoryRow>, after: seq<DecisionHistoryRow>,
                         updates: seq<OutcomeUpdate>, done: nat)
    requires done < |updates| && IsWritten(userId, before, after, updates[..done])
    ensures IsWritten(userId, before, UpdateWhere(after, userId, updates[done]), updates[..done + 1])
  {
    StatementReadsBack(after, userId, updates[done]);
    assert updates[..done + 1][..done] == updates[..done];
  }

  /** The table as both the browser and the worker use it. Any statement may fail; `faults` says which. */
  class DecisionTable {
    var rows: seq<DecisionHistoryRow>

    constructor ()
      ensures rows == []
    {
      rows := [];
    }

    method AddRecords(userId: string, records: seq<DecisionRecord>, fault: bool) returns (ok: bool)
      modifies this
      ensures ok <==> records == [] || !fault
      ensures LoadFor(rows, userId) == LoadFor(old(rows), userId) + (if ok then records else [])
      ensures old(rows) <= rows && forall row | row in rows[|old(rows)|..] :: row.userId == userId
    {
      if records == [] {
        return true;
      }
      ok := !fault;
      if ok {
        InsertReadsBack(rows, userId, records);
        rows := rows + RowsFor(userId, records);
      }
    }

    /** One statement per update. Read back, the loop is one pass over the user's records; if a
        statement fails, it is a pass of the updates before it. No other user's row is touched. */
    method UpdateOutcomes(userId: string, updates: seq<OutcomeUpdate>, faults: set<nat>)
      returns (ok: bool, done: nat)
      modifies this
      ensures done <= |updates| && (ok <==> done == |updates|)
      ensures !ok ==> done in faults
      ensures forall k | 0 <= k < done :: k !in faults
      ensures LoadFor(rows, userId) == ApplyOutcomeUpdates(LoadFor(old(rows), userId), updates[..done])
      ensures OthersKept(userId, old(rows), rows)
    {
      ghost var before := rows;
      NothingWritten(userId, rows);
      done := 0;
      while done < |updates| && done !in faults
        invariant done <= |updates|
        invariant forall k | 0 <= k < done :: k !in faults
        invariant IsWritten(userId, before, rows, updates[..done])
      {
        OneMoreStatement(userId, before, rows, updates, done);
        rows := UpdateWhere(rows, userId, updates[done]);
        done := done + 1;
      }
      ok := done == |updates|;
      OneWritePerUpdateIsOnePass(LoadFor(before, userId), updates[..done]);
    }
  }

  // ---- The capped local list --------------------------------------------------------------------

  const MAX_ENTRIES := 500

  function FirstEntries(records: seq<DecisionRecord>): seq<DecisionRecord> {
    if |records| <= 500 then records else records[..500]
  }

  lemma CapCommutesWithAdding(records: seq<DecisionRecord>, history: seq<DecisionRecord>)
    ensures FirstEntries(records + FirstEntries(history)) == FirstEntries(records + history)
  {
  }

  lemma CapCommutesWithUpdating(history: seq<DecisionRecord>, updates: seq<OutcomeUpdate>)
    ensures ApplyOutcomeUpdates(FirstEntries(history), updates) == FirstEntries(ApplyOutcomeUpdates(history, updates))
  {
    forall i | 0 <= i < |FirstEntries(history)|
      ensures ApplyOutcomeUpdates(FirstEntries(history), updates)[i] ==
          FirstEntries(ApplyOutcomeUpdates(history, updates))[i]
    {
      AppliedAt(FirstEntries(history), updates, i);
      AppliedAt(history, updates, i);
    }
  }

  datatype StoreCall = Add(records: seq<DecisionRecord>) | Update(updates: seq<OutcomeUpdate>)

  /** The history without a cap, newest batch first. */
  function Uncapped(calls: seq<StoreCall>): seq<DecisionRecord> {
    if calls == [] then []
    else
      var before := Uncapped(calls[..|calls| - 1]);
      match calls[|calls| - 1]
      case Add(records) => records + before
      case Update(updates) => ApplyOutcomeUpdates(before, updates)
  }

  /** What one call makes of the list it has read. */
  function Kept(list: seq<DecisionRecord>, call: StoreCall): seq<DecisionRecord> {
    match call
    case Add(records) => FirstEntries(records + list)
    case Update(updates) => ApplyOutcomeUpdates(list, updates)
  }

  /** The list as it is kept, cut back at every call. */
  function Capped(calls: seq<StoreCall>): seq<DecisionRecord> {
    if calls == [] then [] else Kept(Capped(calls[..|calls| - 1]), calls[|calls| - 1])
  }

  /** After any calls the capped list is the first 500 entries of the uncapped history. */
  lemma {:induction false} CappedStoreRefinesHistory(calls: seq<StoreCall>)
    ensures Capped(calls) == FirstEntries(Uncapped(calls))
  {
    if calls == [] {
    } else {
      var init := calls[..|calls| - 1];
      CappedStoreRefinesHistory(init);
      match calls[|calls| - 1]
      case Add(records) => CapCommutesWithAdding(records, Uncapped(init));
      case Update(updates) => CapCommutesWithUpdating(Uncapped(init), updates);
    }
  }

  /** The local store: one stored list, read and overwritten whole. `calls` are the calls that
      succeeded; a failed write leaves the list as it was. */
  class LocalDecisionHistoryStore {
    var stored: seq<DecisionRecord>
    ghost var calls: seq<StoreCall>

    ghost predicate Valid()
      reads this
    {
      stored == Capped(calls)
    }

    constructor ()
      ensures Valid() && calls == []
    {
      stored, calls := [], [];
    }

    method Load() returns (records: seq<DecisionRecord>)
      requires Valid()
      ensures records == FirstEntries(Uncapped(calls))
    {
      CappedStoreRefinesHistory(calls);
      records := stored;
    }

    method AddRecords(records: seq<DecisionRecord>, quotaExceeded: bool) returns (ok: bool)
      requires Valid()
      modifies this
      ensures Valid() && ok == !quotaExceeded
      ensures calls == if ok then old(calls) + [Add(records)] else old(calls)
    {
      var next := records + stored;
      if |next| > MAX_ENTRIES {
        next := next[..MAX_ENTRIES];
      }
      ok := !quotaExceeded;
      if ok {
        stored := next;
        assert (calls + [Add(records)])[..|calls|] == calls;
        calls := calls + [Add(records)];
      }
    }

    method UpdateOutcomes(updates: seq<OutcomeUpdate>, quotaExceeded: bool) returns (ok: bool)
      requires Valid()
      modifies this
      ensures Valid() && (ok <==> updates == [] || !quotaExceeded)
      ensures calls == if ok then old(calls) + [Update(updates)] else old(calls)
    {
      assert (calls + [Update(updates)])[..|calls|] == calls;
      if updates == [] {
        calls := calls + [Update(updates)];
        return true;
      }
      var next := ApplyOutcomeUpdates(stored, updates);
      ok := !quotaExceeded;
      if ok {
        stored := next;
        calls := calls + [Update(updates)];
      }
    }
  }
}
