/** The order in which a scan writes: trade, then decision, then records. Whatever fails and whenever,
    nothing stored names a trade that is not stored already. */
module PersistenceOrder {
  import opened Trades
  import opened BotRunner
  import opened DecisionRecords
  import opened WorkerSystem

  /** The decision names a trade exactly when it is stored with a row, and that row holds the trade. */
  predicate NamesStored(book: seq<PaperTrade>, d: BotDecision, row: Option<nat>) {
    && (d.createdTradeId.Some? <==> row.Some?)
    && (row.Some? ==> row.value < |book| && book[row.value].id == d.createdTradeId.value)
  }

  /** A stored decision stands behind the record, and the record names no other trade than it does. */
  ghost predicate Backed(decisions: seq<StoredDecision>, r: DecisionRecord) {
    exists k | 0 <= k < |decisions| ::
      && decisions[k].decision.id == r.sourceDecisionId
      && (r.createdTradeId.Some? ==> r.createdTradeId == decisions[k].decision.createdTradeId)
  }

  ghost predicate PhaseOrdered(s: System, p: Phase) {
    match p
    case Decided(_, _, _, d, trade) => d.createdTradeId == (if trade.Some? then Some(trade.value.id) else None)
    case TradeSettled(d, row) => NamesStored(s.book, d, row)
    case DecisionSettled(d) => exists k | 0 <= k < |s.decisions| :: s.decisions[k].decision == d
    case _ => true
  }

  ghost predicate Ordered(s: System) {
    && (forall sd | sd in s.decisions :: NamesStored(s.book, sd.decision, sd.tradeRow))
    && (forall r | r in s.records :: Backed(s.decisions, r))
    && (forall w | w in s.phases :: PhaseOrdered(s, s.phases[w]))
  }

  /** `s'` has all that `s` has, and every trade keeps its row and identifier. */
  ghost predicate Grows(s: System, s': System) {
    && |s.book| <= |s'.book| && (forall k | 0 <= k < |s.book| :: s'.book[k].id == s.book[k].id)
    && s.decisions <= s'.decisions
  }

  lemma OldStaysOrdered(s: System, s': System)
    requires Ordered(s) && Grows(s, s')
    ensures forall sd | sd in s.decisions :: NamesStored(s'.book, sd.decision, sd.tradeRow)
    ensures forall r | r in s.records :: Backed(s'.decisions, r)
    ensures forall w | w in s.phases :: PhaseOrdered(s', s.phases[w])
  {
    forall r | r in s.records
      ensures Backed(s'.decisions, r)
    {
      var k :| 0 <= k < |s.decisions| && s.decisions[k].decision.id == r.sourceDecisionId
               && (r.createdTradeId.Some? ==> r.createdTradeId == s.decisions[k].decision.createdTradeId);
      assert s'.decisions[k] == s.decisions[k];
    }
    forall w | w in s.phases
      ensures PhaseOrdered(s', s.phases[w])
    {
      assert PhaseOrdered(s, s.phases[w]);
      if s.phases[w].DecisionSettled? {
        var k :| 0 <= k < |s.decisions| && s.decisions[k].decision == s.phases[w].decision;
        assert s'.decisions[k] == s.decisions[k];
      }
    }
  }

  lemma StepGrows(acct: Account, s: System, step: Step)
    requires Enabled(acct, s, step)
    ensures Grows(s, After(acct, s, step))
  {
  }

  lemma StoreDecisionKeepsOrder(acct: Account, s: System, w: WorkerId, result: WriteResult)
    requires Ordered(s) && Enabled(acct, s, StoreDecision(w, result))
    ensures Ordered(After(acct, s, StoreDecision(w, result)))
  {
    var s', p := After(acct, s, StoreDecision(w, result)), s.phases[w];
    assert PhaseOrdered(s, p);
    StepGrows(acct, s, StoreDecision(w, result));
    OldStaysOrdered(s, s');
    if result == Stored { assert s'.decisions[|s.decisions|].decision == p.decision; }
  }

  lemma StoreRecordsKeepsOrder(acct: Account, s: System, w: WorkerId, result: WriteResult)
    requires Ordered(s) && Enabled(acct, s, StoreRecords(w, result))
    ensures Ordered(After(acct, s, StoreRecords(w, result)))
  {
    var s', p := After(acct, s, StoreRecords(w, result)), s.phases[w];
    assert PhaseOrdered(s, p);
    StepGrows(acct, s, StoreRecords(w, result));
    OldStaysOrdered(s, s');
    forall r | r in BuildDecisionRecords(acct, p.decision)
      ensures Backed(s'.decisions, r)
    {
      var k :| 0 <= k < |s.decisions| && s.decisions[k].decision == p.decision;
      assert s'.decisions[k].decision.id == r.sourceDecisionId;
    }
  }

  lemma StepKeepsOrder(acct: Account, s: System, step: Step)
    requires Ordered(s) && Enabled(acct, s, step)
    ensures Ordered(After(acct, s, step))
  {
    match step
    case StoreDecision(w, result) => StoreDecisionKeepsOrder(acct, s, w, result);
    case StoreRecords(w, result) => StoreRecordsKeepsOrder(acct, s, w, result);
    case _ =>
      var s' := After(acct, s, step);
      StepGrows(acct, s, step);
      OldStaysOrdered(s, s');
      assert s'.decisions == s.decisions && s'.records == s.records;
  }

  lemma {:induction false} OrderedInRun(acct: Account, ss: seq<System>, steps: seq<Step>, i: nat)
    requires IsRun(acct, ss, steps) && i < |ss|
    ensures Ordered(ss[i])
  {
    if i == 0 {
    } else {
      OrderedInRun(acct, ss, steps, i - 1);
      StepKeepsOrder(acct, ss[i - 1], steps[i - 1]);
    }
  }

  /** In every state of every run, timely or not: a stored decision names a trade exactly when it has
      the row of a stored trade with that identifier, and a stored record that names a trade names the
      one of a decision stored before it. */
  lemma NothingNamesAMissingTrade(acct: Account, ss: seq<System>, steps: seq<Step>, i: nat)
    requires IsRun(acct, ss, steps) && i < |ss|
    ensures forall sd | sd in ss[i].decisions :: NamesStored(ss[i].book, sd.decision, sd.tradeRow)
    ensures forall r | r in ss[i].records && r.createdTradeId.Some? ::
              && Backed(ss[i].decisions, r)
              && exists t | t in ss[i].book :: t.id == r.createdTradeId.value
  {
    var s := ss[i];
    OrderedInRun(acct, ss, steps, i);
    forall r | r in s.records && r.createdTradeId.Some?
      ensures exists t | t in s.book :: t.id == r.createdTradeId.value
    {
      var k :| 0 <= k < |s.decisions| && s.decisions[k].decision.id == r.sourceDecisionId
               && r.createdTradeId == s.decisions[k].decision.createdTradeId;
      assert NamesStored(s.book, s.decisions[k].decision, s.decisions[k].tradeRow);
      assert s.book[s.decisions[k].tradeRow.value] in s.book;
    }
  }
}
