/** Outcome analysis: classifying accepted decisions once their trade has closed. */
module OutcomeAnalysis {
  import opened Trades
  import opened DecisionRecords

  const NEUTRAL_PNL_THRESHOLD_GBP := 0.01

  datatype OutcomeUpdate = OutcomeUpdate(
    recordId: string,
    outcome: Outcome,
    realisedPnl: real,
    realisedPnlPercent: real,
    holdingMinutes: int,
    closedAt: int,
    outcomeRecordedAt: int)

  /** A profit or loss of up to a penny is neither. */
  predicate IsOutcome(pnl: real, o: Outcome) {
    match o
    case Win => pnl > 0.01
    case Loss => pnl < -0.01
    case Neutral => -0.01 <= pnl <= 0.01
    case Pending => false
  }

  function ClassifyOutcome(pnl: real): (o: Outcome)
    ensures IsOutcome(pnl, o)
  {
    if pnl > NEUTRAL_PNL_THRESHOLD_GBP then Win
    else if pnl < -NEUTRAL_PNL_THRESHOLD_GBP then Loss
    else Neutral
  }

  // Minutes rounded half up, never negative; the division rounds down for negative spans too.
  function HoldingMinutes(openedAt: int, closedAt: int): int {
    var minutes := (closedAt - openedAt + 30000) / 60000;
    if minutes < 0 then 0 else minutes
  }

  predicate ClosedWithData(t: PaperTrade) {
    t.status == Closed && t.realisedPnl.Some? && t.realisedPnlPercent.Some? && t.closedAt.Some?
  }

  function ComputeOutcomeUpdate(t: PaperTrade, r: DecisionRecord, now: int): Option<OutcomeUpdate> {
    if !r.tradeOpened then None
    else if r.outcome != Pending then None
    else if r.createdTradeId != Some(t.id) then None
    else if t.status != Closed then None
    else if t.realisedPnl.None? || t.realisedPnlPercent.None? || t.closedAt.None? then None
    else Some(OutcomeUpdate(
      r.id, ClassifyOutcome(t.realisedPnl.value), t.realisedPnl.value, t.realisedPnlPercent.value,
      HoldingMinutes(t.timestamp, t.closedAt.value), t.closedAt.value, now))
  }

  /** Trades keyed by identifier; of two with the same one the later in the list counts. */
  function TradesById(trades: seq<PaperTrade>): map<string, PaperTrade> {
    if trades == [] then map[]
    else TradesById(trades[..|trades| - 1])[trades[|trades| - 1].id := trades[|trades| - 1]]
  }

  function UpdatesById(updates: seq<OutcomeUpdate>): map<string, OutcomeUpdate> {
    if updates == [] then map[]
    else UpdatesById(updates[..|updates| - 1])[updates[|updates| - 1].recordId := updates[|updates| - 1]]
  }

  // A missing or empty identifier links to nothing.
  function UpdateFor(byId: map<string, PaperTrade>, r: DecisionRecord, now: int): Option<OutcomeUpdate> {
    if r.createdTradeId.None? || r.createdTradeId.value == "" || r.createdTradeId.value !in byId then None
    else ComputeOutcomeUpdate(byId[r.createdTradeId.value], r, now)
  }

  function UpdatesOf(byId: map<string, PaperTrade>, records: seq<DecisionRecord>, now: int): seq<OutcomeUpdate> {
    if records == [] then []
    else
      var u := UpdateFor(byId, records[|records| - 1], now);
      UpdatesOf(byId, records[..|records| - 1], now) + (if u.Some? then [u.value] else [])
  }

  method FindReconcilableOutcomes(trades: seq<PaperTrade>, records: seq<DecisionRecord>,
                                  now: int) returns (updates: seq<OutcomeUpdate>)
    ensures updates == UpdatesOf(TradesById(trades), records, now)
    ensures forall u :: u in updates <==> IsDue(trades, records, now, u)
  {
    var tradesById := TradesById(trades);
    updates := [];
    for i := 0 to |records|
      invariant updates == UpdatesOf(tradesById, records[..i], now)
    {
      assert records[..i + 1][..i] == records[..i];
      var record := records[i];
      if !record.tradeOpened || record.outcome != Pending
         || record.createdTradeId.None? || record.createdTradeId.value == "" {
        continue;
      }
      if record.createdTradeId.value !in tradesById {
        continue;
      }
      var update := ComputeOutcomeUpdate(tradesById[record.createdTradeId.value], record, now);
      if update.Some? {
        updates := updates + [update.value];
      }
    }
    assert records[..|records|] == records;
    forall u
      ensures u in updates <==> IsDue(trades, records, now, u)
    {
      FoundExactlyWhenDue(trades, records, now, u);
    }
  }

  function ApplyOutcomeUpdate(r: DecisionRecord, u: OutcomeUpdate): DecisionRecord {
    if r.id != u.recordId then r
    else r.(outcome := u.outcome, realisedPnl := Some(u.realisedPnl), realisedPnlPercent := Some(u.realisedPnlPercent),
            holdingMinutes := Some(u.holdingMinutes), closedAt := Some(u.closedAt),
            outcomeRecordedAt := Some(u.outcomeRecordedAt))
  }

  function ApplyFromMap(r: DecisionRecord, byId: map<string, OutcomeUpdate>): DecisionRecord {
    if r.id in byId then ApplyOutcomeUpdate(r, byId[r.id]) else r
  }

  function ApplyOutcomeUpdates(records: seq<DecisionRecord>,
                               updates: seq<OutcomeUpdate>): (applied: seq<DecisionRecord>)
    ensures |applied| == |records|
  {
    if updates == [] then records
    else
      var byId := UpdatesById(updates);
      seq(|records|, i requires 0 <= i < |records| => ApplyFromMap(records[i], byId))
  }

  /** Applying is pointwise, the empty list included. */
  lemma AppliedAt(records: seq<DecisionRecord>, updates: seq<OutcomeUpdate>, i: nat)
    requires i < |records|
    ensures ApplyOutcomeUpdates(records, updates)[i] == ApplyFromMap(records[i], UpdatesById(updates))
  {
  }

  // ---- One write per update ---------------------------------------------------------------------

  /** What one `UPDATE ... WHERE id = u.recordId` does to the records. */
  function WriteRow(records: seq<DecisionRecord>, u: OutcomeUpdate): (after: seq<DecisionRecord>)
    ensures |after| == |records|
  {
    seq(|records|, i requires 0 <= i < |records| => ApplyOutcomeUpdate(records[i], u))
  }

  function WriteAll(records: seq<DecisionRecord>, updates: seq<OutcomeUpdate>): (after: seq<DecisionRecord>)
    ensures |after| == |records|
  {
    if updates == [] then records else WriteRow(WriteAll(records, updates[..|updates| - 1]), updates[|updates| - 1])
  }

  /** Writing the updates one after the other is one pass over the records: of two updates for the
      same record the later wins in both. */
  lemma {:induction false} OneWritePerUpdateIsOnePass(records: seq<DecisionRecord>, updates: seq<OutcomeUpdate>)
    ensures WriteAll(records, updates) == ApplyOutcomeUpdates(records, updates)
  {
    if updates == [] {
    } else {
      var init, last := updates[..|updates| - 1], updates[|updates| - 1];
      OneWritePerUpdateIsOnePass(records, init);
      forall i | 0 <= i < |records|
        ensures WriteAll(records, updates)[i] == ApplyOutcomeUpdates(records, updates)[i]
      {
        AppliedAt(records, init, i);
        AppliedAt(records, updates, i);
        MappedUpdates(init, records[i].id);
      }
    }
  }

  // ---- What an update says ----------------------------------------------------------------------

  /** The whole minutes nearest to the span, the longer of two, and none for a negative one. */
  predicate IsHolding(span: int, minutes: int) {
    minutes >= 0 && if span < -30000 then minutes == 0 else 60000 * minutes - 30000 <= span < 60000 * minutes + 30000
  }

  lemma HoldingIsRounded(openedAt: int, closedAt: int, minutes: int)
    ensures minutes == HoldingMinutes(openedAt, closedAt) <==> IsHolding(closedAt - openedAt, minutes)
  {
  }

  /** The figures are those of the closed trade. */
  predicate TellsTrade(t: PaperTrade, outcome: Outcome, pnl: real, percent: real, minutes: int, closedAt: int) {
    && t.status == Closed
    && t.realisedPnl == Some(pnl) && t.realisedPnlPercent == Some(percent) && t.closedAt == Some(closedAt)
    && IsOutcome(pnl, outcome) && IsHolding(closedAt - t.timestamp, minutes)
  }

  predicate IsUpdate(t: PaperTrade, r: DecisionRecord, now: int, u: OutcomeUpdate) {
    && r.tradeOpened && r.outcome == Pending && r.createdTradeId == Some(t.id)
    && u.recordId == r.id && u.outcomeRecordedAt == now
    && TellsTrade(t, u.outcome, u.realisedPnl, u.realisedPnlPercent, u.holdingMinutes, u.closedAt)
  }

  lemma ComputedExactly(t: PaperTrade, r: DecisionRecord, now: int, u: OutcomeUpdate)
    ensures ComputeOutcomeUpdate(t, r, now) == Some(u) <==> IsUpdate(t, r, now, u)
  {
    if t.closedAt.Some? { HoldingIsRounded(t.timestamp, t.closedAt.value, u.holdingMinutes); }
    if ComputeOutcomeUpdate(t, r, now) == Some(u) {
      HoldingIsRounded(t.timestamp, t.closedAt.value, HoldingMinutes(t.timestamp, t.closedAt.value));
    }
  }

  /** The `k`-th trade is the last of the list with its identifier, which is not empty. */
  predicate IsLinkable(trades: seq<PaperTrade>, k: nat) {
    k < |trades| && trades[k].id != "" && forall j | k < j < |trades| :: trades[j].id != trades[k].id
  }

  /** The update is that of a record and the last trade of the list that it names. */
  ghost predicate IsDue(trades: seq<PaperTrade>, records: seq<DecisionRecord>, now: int, u: OutcomeUpdate) {
    exists k: nat, r :: r in records && IsLinkable(trades, k) && IsUpdate(trades[k], r, now, u)
  }

  lemma {:induction false} LastIsMapped(trades: seq<PaperTrade>, k: nat)
    requires IsLinkable(trades, k)
    ensures trades[k].id in TradesById(trades) && TradesById(trades)[trades[k].id] == trades[k]
  {
    if k < |trades| - 1 {
      LastIsMapped(trades[..|trades| - 1], k);
    }
  }

  lemma {:induction false} MappedIsLast(trades: seq<PaperTrade>, id: string) returns (k: nat)
    requires id in TradesById(trades) && id != ""
    ensures IsLinkable(trades, k) && trades[k].id == id && TradesById(trades)[id] == trades[k]
  {
    var init, last := trades[..|trades| - 1], trades[|trades| - 1];
    if last.id == id {
      k := |trades| - 1;
    } else {
      k := MappedIsLast(init, id);
    }
  }

  /** What the loop finds are exactly the updates that are due. */
  lemma FoundExactlyWhenDue(trades: seq<PaperTrade>, records: seq<DecisionRecord>, now: int, u: OutcomeUpdate)
    ensures u in UpdatesOf(TradesById(trades), records, now) <==> IsDue(trades, records, now, u)
  {
    var byId := TradesById(trades);
    UpdatesCome(byId, records, now, u);
    if u in UpdatesOf(byId, records, now) {
      var r :| r in records && UpdateFor(byId, r, now) == Some(u);
      var k := MappedIsLast(trades, r.createdTradeId.value);
      ComputedExactly(trades[k], r, now, u);
    }
    if IsDue(trades, records, now, u) {
      var k: nat, r :| r in records && IsLinkable(trades, k) && IsUpdate(trades[k], r, now, u);
      LastIsMapped(trades, k);
      ComputedExactly(trades[k], r, now, u);
      assert UpdateFor(byId, r, now) == Some(u);
    }
  }

  // ---- What a pass finds ------------------------------------------------------------------------

  /** An accepted record whose linked trade is closed with profit data. */
  predicate Eligible(byId: map<string, PaperTrade>, r: DecisionRecord) {
    && r.tradeOpened && r.createdTradeId.Some? && r.createdTradeId.value != ""
    && r.createdTradeId.value in byId && byId[r.createdTradeId.value].id == r.createdTradeId.value
    && ClosedWithData(byId[r.createdTradeId.value])
  }

  lemma {:induction false} KeyedById(trades: seq<PaperTrade>)
    ensures forall k | k in TradesById(trades) :: TradesById(trades)[k].id == k && TradesById(trades)[k] in trades
  {
    if trades == [] {
    } else {
      KeyedById(trades[..|trades| - 1]);
      assert trades == trades[..|trades| - 1] + [trades[|trades| - 1]];
    }
  }

  lemma FoundExactlyWhenEligible(byId: map<string, PaperTrade>, r: DecisionRecord, now: int)
    ensures UpdateFor(byId, r, now).Some? <==> Eligible(byId, r) && r.outcome == Pending
    ensures UpdateFor(byId, r, now).Some? ==> UpdateFor(byId, r, now).value.recordId == r.id
  {
  }

  lemma {:induction false} UpdatesCome(byId: map<string, PaperTrade>, records: seq<DecisionRecord>, now: int,
                                       u: OutcomeUpdate)
    ensures u in UpdatesOf(byId, records, now) <==> exists r :: r in records && UpdateFor(byId, r, now) == Some(u)
  {
    if records == [] {
    } else {
      var init, last := records[..|records| - 1], records[|records| - 1];
      assert records == init + [last];
      UpdatesCome(byId, init, now, u);
    }
  }

  lemma {:induction false} MappedUpdates(updates: seq<OutcomeUpdate>, id: string)
    ensures id in UpdatesById(updates) <==> exists u :: u in updates && u.recordId == id
    ensures id in UpdatesById(updates) ==>
        UpdatesById(updates)[id] in updates && UpdatesById(updates)[id].recordId == id
  {
    if updates == [] {
    } else {
      var init, last := updates[..|updates| - 1], updates[|updates| - 1];
      assert updates == init + [last];
      MappedUpdates(init, id);
    }
  }

  // ---- Idempotence ------------------------------------------------------------------------------

  /** Any record still pending after a pass is one for which the pass had nothing. */
  lemma PassLeavesNothingFor(byId: map<string, PaperTrade>, records: seq<DecisionRecord>, now: int, later: int, i: nat)
    requires i < |records|
    ensures UpdateFor(byId, ApplyOutcomeUpdates(records, UpdatesOf(byId, records, now))[i], later) == None
  {
    var updates, r := UpdatesOf(byId, records, now), records[i];
    AppliedAt(records, updates, i);
    MappedUpdates(updates, r.id);
    FoundExactlyWhenEligible(byId, r, now);
    if r.id in UpdatesById(updates) {
      var u := UpdatesById(updates)[r.id];
      UpdatesCome(byId, records, now, u);
      var source :| source in records && UpdateFor(byId, source, now) == Some(u);
      assert u.outcome != Pending;
    } else if UpdateFor(byId, r, now).Some? {
      UpdatesCome(byId, records, now, UpdateFor(byId, r, now).value);
      assert false;
    }
  }

  lemma {:induction false} NothingToFind(byId: map<string, PaperTrade>, records: seq<DecisionRecord>, now: int)
    requires forall i | 0 <= i < |records| :: UpdateFor(byId, records[i], now) == None
    ensures UpdatesOf(byId, records, now) == []
  {
    if records == [] {
    } else {
      NothingToFind(byId, records[..|records| - 1], now);
    }
  }

  /** A second pass over the result of a pass finds nothing, for any lists whatever. */
  lemma ReconciliationIsIdempotent(trades: seq<PaperTrade>, records: seq<DecisionRecord>, now: int, later: int)
    ensures var byId := TradesById(trades);
            UpdatesOf(byId, ApplyOutcomeUpdates(records, UpdatesOf(byId, records, now)), later) == []
  {
    var byId := TradesById(trades);
    var after := ApplyOutcomeUpdates(records, UpdatesOf(byId, records, now));
    forall i | 0 <= i < |after|
      ensures UpdateFor(byId, after[i], later) == None
    {
      PassLeavesNothingFor(byId, records, now, later, i);
    }
    NothingToFind(byId, after, later);
  }

  // ---- Exactness --------------------------------------------------------------------------------

  /** The record as created: nothing of an outcome yet. */
  function Base(r: DecisionRecord): DecisionRecord {
    r.(outcome := Pending, realisedPnl := None, realisedPnlPercent := None, holdingMinutes := None,
       closedAt := None, outcomeRecordedAt := None)
  }

  /** Everything about a record except when its outcome was recorded. */
  function Timeless(r: DecisionRecord): DecisionRecord { r.(outcomeRecordedAt := None) }

  /** What a record should say, given the trades: its trade's result once that is in, else nothing. */
  function Ideal(byId: map<string, PaperTrade>, r: DecisionRecord): DecisionRecord {
    var b := Base(r);
    if !Eligible(byId, b) then b
    else
      var t := byId[b.createdTradeId.value];
      b.(outcome := ClassifyOutcome(t.realisedPnl.value), realisedPnl := t.realisedPnl,
         realisedPnlPercent := t.realisedPnlPercent,
         holdingMinutes := Some(HoldingMinutes(t.timestamp, t.closedAt.value)), closedAt := t.closedAt)
  }

  /** Unclassified, or classified as it should be. */
  predicate Sound(byId: map<string, PaperTrade>, r: DecisionRecord) {
    r == Base(r) || (Eligible(byId, Base(r)) && Timeless(r) == Ideal(byId, r))
  }

  lemma OnlyOwnUpdate(byId: map<string, PaperTrade>, records: seq<DecisionRecord>, now: int, i: nat)
    requires i < |records| && DistinctIds(records)
    ensures var updates, r := UpdatesById(UpdatesOf(byId, records, now)), records[i];
            if UpdateFor(byId, r, now).Some? then r.id in updates && updates[r.id] == UpdateFor(byId, r, now).value
            else r.id !in updates
  {
    var updates, r := UpdatesOf(byId, records, now), records[i];
    MappedUpdates(updates, r.id);
    FoundExactlyWhenEligible(byId, r, now);
    if UpdateFor(byId, r, now).Some? {
      UpdatesCome(byId, records, now, UpdateFor(byId, r, now).value);
    }
    if r.id in UpdatesById(updates) {
      var u := UpdatesById(updates)[r.id];
      UpdatesCome(byId, records, now, u);
      var source :| source in records && UpdateFor(byId, source, now) == Some(u);
      FoundExactlyWhenEligible(byId, source, now);
      var j :| 0 <= j < |records| && records[j] == source;
      assert j == i;
    }
  }

  lemma PassIsIdeal(trades: seq<PaperTrade>, records: seq<DecisionRecord>, now: int, i: nat)
    requires i < |records| && DistinctIds(records) && Sound(TradesById(trades), records[i])
    ensures var byId := TradesById(trades);
            Timeless(ApplyOutcomeUpdates(records, UpdatesOf(byId, records, now))[i]) == Ideal(byId, records[i])
  {
    var byId, r := TradesById(trades), records[i];
    AppliedAt(records, UpdatesOf(byId, records, now), i);
    OnlyOwnUpdate(byId, records, now, i);
    FoundExactlyWhenEligible(byId, r, now);
  }

  /** The record is classified, with the figures of the trade. */
  predicate Tells(t: PaperTrade, r: DecisionRecord) {
    && r.tradeOpened && r.createdTradeId == Some(t.id)
    && r.realisedPnl.Some? && r.realisedPnlPercent.Some? && r.holdingMinutes.Some? && r.closedAt.Some?
    && TellsTrade(t, r.outcome, r.realisedPnl.value, r.realisedPnlPercent.value, r.holdingMinutes.value,
                  r.closedAt.value)
  }

  lemma IdealTells(byId: map<string, PaperTrade>, r: DecisionRecord)
    requires Eligible(byId, Base(r)) && Timeless(r) == Ideal(byId, r)
    ensures Tells(byId[r.createdTradeId.value], r)
  {
    var t := byId[r.createdTradeId.value];
    assert Timeless(r).holdingMinutes == r.holdingMinutes;
    HoldingIsRounded(t.timestamp, t.closedAt.value, HoldingMinutes(t.timestamp, t.closedAt.value));
  }

  /** The record was accepted, and the last trade of the list that it names is closed with its data. */
  predicate IsClassifiable(trades: seq<PaperTrade>, k: nat, r: DecisionRecord) {
    && IsLinkable(trades, k) && r.tradeOpened && r.createdTradeId == Some(trades[k].id)
    && trades[k].status == Closed && trades[k].realisedPnl.Some? && trades[k].realisedPnlPercent.Some?
    && trades[k].closedAt.Some?
  }

  lemma EligibleExactly(trades: seq<PaperTrade>, r: DecisionRecord)
    ensures Eligible(TradesById(trades), Base(r)) <==> exists k: nat :: IsClassifiable(trades, k, r)
    ensures forall k: nat | IsClassifiable(trades, k, r) :: TradesById(trades)[r.createdTradeId.value] == trades[k]
  {
    if Eligible(TradesById(trades), Base(r)) {
      var k := MappedIsLast(trades, r.createdTradeId.value);
      assert IsClassifiable(trades, k, r);
    }
    forall k: nat | IsClassifiable(trades, k, r)
      ensures Eligible(TradesById(trades), Base(r)) && TradesById(trades)[r.createdTradeId.value] == trades[k]
    {
      LastIsMapped(trades, k);
    }
  }

  /** One pass takes every sound record to what its trade did: an accepted record whose linked trade is
      closed with profit data ends classified by that trade's figures, any other as it was created. */
  lemma PassIsExact(trades: seq<PaperTrade>, records: seq<DecisionRecord>, now: int, i: nat)
    requires i < |records| && DistinctIds(records) && Sound(TradesById(trades), records[i])
    ensures var after := ApplyOutcomeUpdates(records, UpdatesOf(TradesById(trades), records, now))[i];
            && Base(after) == Base(records[i])
            && (forall k: nat | IsClassifiable(trades, k, records[i]) :: Tells(trades[k], after))
            && ((forall k: nat :: !IsClassifiable(trades, k, records[i])) ==> after == Base(records[i]))
  {
    var byId, r := TradesById(trades), records[i];
    var after := ApplyOutcomeUpdates(records, UpdatesOf(byId, records, now))[i];
    PassIsIdeal(trades, records, now, i);
    EligibleExactly(trades, r);
    AppliedAt(records, UpdatesOf(byId, records, now), i);
    OnlyOwnUpdate(byId, records, now, i);
    FoundExactlyWhenEligible(byId, r, now);
    assert Base(after) == Base(r);
    assert Ideal(byId, after) == Ideal(byId, r);
    if Eligible(byId, Base(r)) { IdealTells(byId, after); }
  }
}
