/** Browser and worker reconciling the same history at once. Each reads the trades, reads the records,
    computes its updates from what it read, and writes them one row at a time with no guard on the
    present outcome; meanwhile trades open and close and scans add records. */
module ReconcileRaces {
  import opened Trades
  import opened DecisionRecords
  import opened OutcomeAnalysis

  type AgentId = nat

  datatype Agent =
    | Off
    | Reading(trades: Option<seq<PaperTrade>>, records: Option<seq<DecisionRecord>>)
    | Writing(queue: seq<OutcomeUpdate>)

  datatype State = State(trades: seq<PaperTrade>, records: seq<DecisionRecord>, agents: map<AgentId, Agent>) {
    function AgentOf(a: AgentId): Agent { if a in agents then agents[a] else Off }

    function Set(a: AgentId, agent: Agent): State { this.(agents := agents[a := agent]) }
  }

  datatype Step =
    | OpenTrade(t: PaperTrade)
    | CloseTrade(k: nat, closed: PaperTrade)
    | AddRecord(r: DecisionRecord)
    | Begin(a: AgentId)
    | ReadTrades(a: AgentId, trades: seq<PaperTrade>)
    | ReadRecords(a: AgentId, records: seq<DecisionRecord>)
    | Compute(a: AgentId, now: int)
    | WriteOne(a: AgentId)
    | Quit(a: AgentId)

  predicate UniqueTrades(trades: seq<PaperTrade>) {
    forall i, j | 0 <= i < j < |trades| :: trades[i].id != trades[j].id
  }

  ghost predicate Enabled(s: State, step: Step) {
    match step
    case OpenTrade(t) => t.status == Open && forall x | x in s.trades :: x.id != t.id
    case CloseTrade(k, closed) =>
      k < |s.trades| && s.trades[k].status == Open && closed.status == Closed && closed.id == s.trades[k].id
    case AddRecord(r) => r == Base(r) && forall x | x in s.records :: x.id != r.id
    case Begin(a) => s.AgentOf(a).Off?
    case ReadTrades(a, trades) => s.AgentOf(a).Reading? && multiset(trades) == multiset(s.trades)
    case ReadRecords(a, records) => s.AgentOf(a).Reading? && multiset(records) == multiset(s.records)
    case Compute(a, _) => s.AgentOf(a).Reading? && s.AgentOf(a).trades.Some? && s.AgentOf(a).records.Some?
    case WriteOne(a) => s.AgentOf(a).Writing? && s.AgentOf(a).queue != []
    case Quit(_) => true
  }

  ghost function After(s: State, step: Step): State
    requires Enabled(s, step)
  {
    match step
    case OpenTrade(t) => s.(trades := s.trades + [t])
    case CloseTrade(k, closed) => s.(trades := s.trades[k := closed])
    case AddRecord(r) => s.(records := s.records + [r])
    case Begin(a) => s.Set(a, Reading(None, None))
    case ReadTrades(a, trades) => s.Set(a, s.AgentOf(a).(trades := Some(trades)))
    case ReadRecords(a, records) => s.Set(a, s.AgentOf(a).(records := Some(records)))
    case Compute(a, now) =>
      s.Set(a, Writing(UpdatesOf(TradesById(s.AgentOf(a).trades.value), s.AgentOf(a).records.value, now)))
    case WriteOne(a) =>
      s.(records := WriteRow(s.records, s.AgentOf(a).queue[0])).Set(a, Writing(s.AgentOf(a).queue[1..]))
    case Quit(a) => s.Set(a, Off)
  }

  ghost predicate Initial(s: State) {
    && UniqueTrades(s.trades) && DistinctIds(s.records) && s.agents == map[]
    && forall r | r in s.records :: Sound(TradesById(s.trades), r)
  }

  ghost predicate IsRun(ss: seq<State>, steps: seq<Step>) {
    && |ss| == |steps| + 1 && Initial(ss[0])
    && forall i | 0 <= i < |steps| :: Enabled(ss[i], steps[i]) && ss[i + 1] == After(ss[i], steps[i])
  }

  // ---- Lookups in lists of distinct trades ------------------------------------------------------

  lemma {:induction false} LookupUnique(trades: seq<PaperTrade>, t: PaperTrade)
    requires UniqueTrades(trades) && t in trades
    ensures t.id in TradesById(trades) && TradesById(trades)[t.id] == t
  {
    var init, last := trades[..|trades| - 1], trades[|trades| - 1];
    if t != last {
      var i :| 0 <= i < |trades| && trades[i] == t;
      assert init[i] == t;
      LookupUnique(init, t);
    }
  }

  /** What a stale trade list still guarantees: every closed trade in it is present unchanged. */
  ghost predicate StaleTrades(seen: seq<PaperTrade>, trades: seq<PaperTrade>) {
    forall t | t in seen && t.status == Closed :: t in trades
  }

  ghost predicate StaleRecords(seen: seq<DecisionRecord>, records: seq<DecisionRecord>) {
    forall r | r in seen :: exists x :: x in records && Base(x) == Base(r)
  }

  predicate DueFor(byId: map<string, PaperTrade>, r: DecisionRecord, u: OutcomeUpdate) {
    r.id == u.recordId && Eligible(byId, Base(r)) && Timeless(ApplyOutcomeUpdate(r, u)) == Ideal(byId, r)
  }

  /** A queued update is the one its record should get. */
  ghost predicate Due(byId: map<string, PaperTrade>, records: seq<DecisionRecord>, u: OutcomeUpdate) {
    exists r :: r in records && DueFor(byId, r, u)
  }

  ghost predicate AgentInOrder(s: State, agent: Agent) {
    match agent
    case Off => true
    case Reading(trades, records) =>
      && (trades.Some? ==> StaleTrades(trades.value, s.trades))
      && (records.Some? ==> StaleRecords(records.value, s.records))
    case Writing(queue) => forall u | u in queue :: Due(TradesById(s.trades), s.records, u)
  }

  ghost predicate InOrder(s: State) {
    && UniqueTrades(s.trades) && DistinctIds(s.records)
    && (forall r | r in s.records :: Sound(TradesById(s.trades), r))
    && (forall a | a in s.agents :: AgentInOrder(s, s.agents[a]))
  }

  /** An update computed from stale lists is still the right one. */
  lemma StaleUpdateIsDue(s: State, seenTrades: seq<PaperTrade>, seenRecords: seq<DecisionRecord>, now: int,
                         u: OutcomeUpdate)
    requires InOrder(s) && StaleTrades(seenTrades, s.trades) && StaleRecords(seenRecords, s.records)
    requires u in UpdatesOf(TradesById(seenTrades), seenRecords, now)
    ensures Due(TradesById(s.trades), s.records, u)
  {
    var seen := TradesById(seenTrades);
    UpdatesCome(seen, seenRecords, now, u);
    var r :| r in seenRecords && UpdateFor(seen, r, now) == Some(u);
    var t := seen[r.createdTradeId.value];
    KeyedById(seenTrades);
    LookupUnique(s.trades, t);
    var x :| x in s.records && Base(x) == Base(r);
    FoundIsDue(seen, TradesById(s.trades), r, x, now, u);
  }

  lemma FoundIsDue(seen: map<string, PaperTrade>, byId: map<string, PaperTrade>, r: DecisionRecord, x: DecisionRecord,
                   now: int, u: OutcomeUpdate)
    requires UpdateFor(seen, r, now) == Some(u) && Base(x) == Base(r)
    requires r.createdTradeId.value in byId && byId[r.createdTradeId.value] == seen[r.createdTradeId.value]
    ensures DueFor(byId, x, u)
  {
    assert DueFor(byId, r, u);
    DueDependsOnBase(byId, r, x, u);
  }

  // ---- Every step keeps the order ---------------------------------------------------------------

  /** Trades may come and close as long as no closed trade is lost: then nothing that was right about
      a classified record or a queued update becomes wrong. */
  ghost predicate KeepsClosed(s: seq<PaperTrade>, s': seq<PaperTrade>) {
    UniqueTrades(s) && UniqueTrades(s') && forall t | t in s && t.status == Closed :: t in s'
  }

  lemma EligibleStays(trades: seq<PaperTrade>, trades': seq<PaperTrade>, r: DecisionRecord)
    requires KeepsClosed(trades, trades') && Eligible(TradesById(trades), Base(r))
    ensures Ideal(TradesById(trades'), r) == Ideal(TradesById(trades), r)
  {
    var t := TradesById(trades)[r.createdTradeId.value];
    KeyedById(trades);
    LookupUnique(trades', t);
  }

  lemma TradesChangeKeepsOrder(s: State, s': State)
    requires InOrder(s) && KeepsClosed(s.trades, s'.trades) && s'.records == s.records && s'.agents == s.agents
    ensures InOrder(s')
  {
    var byId, byId' := TradesById(s.trades), TradesById(s'.trades);
    forall r | r in s.records && Eligible(byId, Base(r))
      ensures Eligible(byId', Base(r)) && Ideal(byId', r) == Ideal(byId, r)
    {
      EligibleStays(s.trades, s'.trades, r);
    }
    forall a | a in s'.agents
      ensures AgentInOrder(s', s'.agents[a])
    {
      assert AgentInOrder(s, s.agents[a]);
      if s.agents[a].Writing? {
        forall u | u in s.agents[a].queue
          ensures Due(byId', s.records, u)
        {
          assert Due(byId, s.records, u);
          var r :| r in s.records && DueFor(byId, r, u);
          assert DueFor(byId', r, u);
        }
      }
    }
  }

  lemma OpenOrCloseKeepsOrder(s: State, step: Step)
    requires InOrder(s) && Enabled(s, step) && (step.OpenTrade? || step.CloseTrade?)
    ensures InOrder(After(s, step))
  {
    var s' := After(s, step);
    forall t | t in s.trades && t.status == Closed
      ensures t in s'.trades
    {
      var i :| 0 <= i < |s.trades| && s.trades[i] == t;
      assert s'.trades[i] == t;
    }
    TradesChangeKeepsOrder(s, s');
  }

  /** The records may grow, or gain outcomes, as long as each keeps what it was created with. */
  lemma RecordsChangeKeepAgents(s: State, s': State, agent: Agent)
    requires AgentInOrder(s, agent) && s'.trades == s.trades
    requires forall r | r in s.records :: exists x :: x in s'.records && Base(x) == Base(r)
    ensures AgentInOrder(s', agent)
  {
    var byId := TradesById(s.trades);
    match agent
    case Off =>
    case Reading(trades, records) =>
      if records.Some? {
        forall r | r in records.value
          ensures exists x :: x in s'.records && Base(x) == Base(r)
        {
          var y :| y in s.records && Base(y) == Base(r);
          var x :| x in s'.records && Base(x) == Base(y);
        }
      }
    case Writing(queue) =>
      forall u | u in queue
        ensures Due(byId, s'.records, u)
      {
        assert Due(byId, s.records, u);
        var r :| r in s.records && DueFor(byId, r, u);
        var x :| x in s'.records && Base(x) == Base(r);
        DueDependsOnBase(byId, r, x, u);
      }
  }

  lemma DueDependsOnBase(byId: map<string, PaperTrade>, r: DecisionRecord, x: DecisionRecord, u: OutcomeUpdate)
    requires DueFor(byId, r, u) && Base(x) == Base(r)
    ensures DueFor(byId, x, u)
  {
    assert Base(x).id == x.id && Base(r).id == r.id;
    assert ApplyOutcomeUpdate(x, u) == ApplyOutcomeUpdate(Base(x), u);
    assert ApplyOutcomeUpdate(r, u) == ApplyOutcomeUpdate(Base(r), u);
  }

  lemma AddRecordKeepsOrder(s: State, r: DecisionRecord)
    requires InOrder(s) && Enabled(s, AddRecord(r))
    ensures InOrder(After(s, AddRecord(r)))
  {
    var s' := After(s, AddRecord(r));
    forall a | a in s'.agents
      ensures AgentInOrder(s', s'.agents[a])
    {
      RecordsChangeKeepAgents(s, s', s.agents[a]);
    }
  }

  /** Writing a due update classifies its one record and changes no other. */
  lemma DueWriteAt(byId: map<string, PaperTrade>, records: seq<DecisionRecord>, u: OutcomeUpdate, i: nat)
    requires DistinctIds(records) && i < |records| && Due(byId, records, u)
    ensures var after := WriteRow(records, u)[i];
            && Base(after) == Base(records[i])
            && (if records[i].id == u.recordId then Eligible(byId, Base(after)) && Timeless(after) == Ideal(byId, after)
                else after == records[i])
  {
    var r :| r in records && DueFor(byId, r, u);
    var j :| 0 <= j < |records| && records[j] == r;
    if records[i].id == u.recordId { assert i == j; }
  }

  lemma WriteKeepsOrder(s: State, a: AgentId)
    requires InOrder(s) && Enabled(s, WriteOne(a))
    ensures InOrder(After(s, WriteOne(a)))
  {
    var s', byId, u := After(s, WriteOne(a)), TradesById(s.trades), s.agents[a].queue[0];
    assert AgentInOrder(s, s.agents[a]);
    forall i | 0 <= i < |s.records|
      ensures s'.records[i].id == s.records[i].id && Base(s'.records[i]) == Base(s.records[i])
      ensures Sound(byId, s'.records[i])
    {
      DueWriteAt(byId, s.records, u, i);
      assert s.records[i] in s.records;
    }
    forall r | r in s.records
      ensures exists x :: x in s'.records && Base(x) == Base(r)
    {
      var i :| 0 <= i < |s.records| && s.records[i] == r;
      assert s'.records[i] in s'.records;
    }
    forall b | b in s'.agents
      ensures AgentInOrder(s', s'.agents[b])
    {
      assert AgentInOrder(s, s.agents[b]);
      if b == a { assert AgentInOrder(s, Writing(s.agents[a].queue[1..])); }
      RecordsChangeKeepAgents(s, s', s'.agents[b]);
    }
  }

  lemma FreshTradesAreStale(listing: seq<PaperTrade>, trades: seq<PaperTrade>)
    requires multiset(listing) == multiset(trades)
    ensures StaleTrades(listing, trades)
  {
    assert forall t | t in listing :: t in multiset(listing);
  }

  lemma FreshRecordsAreStale(listing: seq<DecisionRecord>, records: seq<DecisionRecord>)
    requires multiset(listing) == multiset(records)
    ensures StaleRecords(listing, records)
  {
    forall r | r in listing
      ensures exists x :: x in records && Base(x) == Base(r)
    {
      assert r in multiset(listing);
      assert r in records && Base(r) == Base(r);
    }
  }

  lemma AgentStepKeepsOrder(s: State, step: Step)
    requires InOrder(s) && Enabled(s, step)
    requires step.Begin? || step.ReadTrades? || step.ReadRecords? || step.Compute? || step.Quit?
    ensures InOrder(After(s, step))
  {
    var s' := After(s, step);
    assert step.a in s.agents ==> AgentInOrder(s, s.agents[step.a]);
    match step
    case ReadTrades(a, trades) => FreshTradesAreStale(trades, s.trades);
    case ReadRecords(a, records) => FreshRecordsAreStale(records, s.records);
    case Compute(a, now) =>
      forall u | u in s'.agents[a].queue
        ensures Due(TradesById(s.trades), s.records, u)
      {
        StaleUpdateIsDue(s, s.agents[a].trades.value, s.agents[a].records.value, now, u);
      }
    case _ =>
  }

  lemma StepKeepsOrder(s: State, step: Step)
    requires InOrder(s) && Enabled(s, step)
    ensures InOrder(After(s, step))
  {
    match step
    case OpenTrade(_) => OpenOrCloseKeepsOrder(s, step);
    case CloseTrade(_, _) => OpenOrCloseKeepsOrder(s, step);
    case AddRecord(r) => AddRecordKeepsOrder(s, r);
    case WriteOne(a) => WriteKeepsOrder(s, a);
    case _ => AgentStepKeepsOrder(s, step);
  }

  lemma {:induction false} InOrderInRun(ss: seq<State>, steps: seq<Step>, i: nat)
    requires IsRun(ss, steps) && i < |ss|
    ensures InOrder(ss[i])
  {
    if i == 0 {
    } else {
      InOrderInRun(ss, steps, i - 1);
      StepKeepsOrder(ss[i - 1], steps[i - 1]);
    }
  }

  // ---- Convergence ------------------------------------------------------------------------------

  /** In every state of every race, each record is as created or says exactly what its trade did. */
  lemma RecordsAreNeverWrong(ss: seq<State>, steps: seq<Step>, i: nat, r: DecisionRecord)
    requires IsRun(ss, steps) && i < |ss| && r in ss[i].records
    ensures r == Base(r) || exists t :: t in ss[i].trades && Tells(t, r)
  {
    InOrderInRun(ss, steps, i);
    var byId := TradesById(ss[i].trades);
    if r != Base(r) {
      IdealTells(byId, r);
      KeyedById(ss[i].trades);
      assert byId[r.createdTradeId.value] in ss[i].trades;
    }
  }

  /** Two races over the same trades and created records end alike, whatever interleavings led there:
      one more pass on each makes them equal in everything but the recording time. */
  lemma RacesConverge(ss: seq<State>, steps: seq<Step>, ss': seq<State>, steps': seq<Step>, now: int, now': int, k: nat)
    requires IsRun(ss, steps) && IsRun(ss', steps')
    requires var s, s' := ss[|steps|], ss'[|steps'|];
             && s.trades == s'.trades && |s.records| == |s'.records|
             && k < |s.records| && Base(s.records[k]) == Base(s'.records[k])
    ensures var s, s' := ss[|steps|], ss'[|steps'|];
            var byId := TradesById(s.trades);
            Timeless(ApplyOutcomeUpdates(s.records, UpdatesOf(byId, s.records, now))[k]) ==
            Timeless(ApplyOutcomeUpdates(s'.records, UpdatesOf(byId, s'.records, now'))[k])
  {
    var s, s' := ss[|steps|], ss'[|steps'|];
    InOrderInRun(ss, steps, |steps|);
    InOrderInRun(ss', steps', |steps'|);
    assert s.records[k] in s.records && s'.records[k] in s'.records;
    PassIsIdeal(s.trades, s.records, now, k);
    PassIsIdeal(s'.trades, s'.records, now', k);
  }

  /** Due updates may be written in any order, any number of times: which records end classified, and
      as what, depends only on which identifiers were written. */
  lemma {:induction false} WriteOrderIsIrrelevant(byId: map<string, PaperTrade>, records: seq<DecisionRecord>,
                                                  updates: seq<OutcomeUpdate>, i: nat)
    requires DistinctIds(records) && i < |records|
    requires forall u | u in updates :: Due(byId, records, u)
    ensures var after := WriteAll(records, updates)[i];
            if exists u :: u in updates && u.recordId == records[i].id then Timeless(after) == Ideal(byId, records[i])
            else after == records[i]
    ensures Base(WriteAll(records, updates)[i]) == Base(records[i])
  {
    if updates == [] {
    } else {
      var init, last := updates[..|updates| - 1], updates[|updates| - 1];
      assert updates == init + [last];
      WriteOrderIsIrrelevant(byId, records, init, i);
      DueWriteAt(byId, records, last, i);
      assert Base(records[i]).id == records[i].id;
      assert ApplyOutcomeUpdate(WriteAll(records, init)[i], last) == WriteAll(records, updates)[i];
      if records[i].id == last.recordId {
        assert ApplyOutcomeUpdate(WriteAll(records, init)[i], last) == ApplyOutcomeUpdate(records[i], last) by {
          assert Base(WriteAll(records, init)[i]).id == WriteAll(records, init)[i].id;
          assert ApplyOutcomeUpdate(WriteAll(records, init)[i], last) == ApplyOutcomeUpdate(Base(records[i]), last);
        }
      }
    }
  }
}
