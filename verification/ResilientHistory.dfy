/** What the two stores hold while calls to the resilient store overlap: the database, written one
    statement at a time, and the local list, read and overwritten whole. A call that only loads changes
    neither, like an update without updates. */
module ResilientHistory {
  import opened Trades
  import opened DecisionRecords
  import opened OutcomeAnalysis
  import opened DecisionStores
  import opened ResilientStore
  import LocalRaces

  /** `view` is the state of the resilient store; `executed` counts the statements of the calls handed
      to the database; `accesses` is all that was done to the local list. */
  datatype History = History(
    view: View,
    begun: set<CallId>,
    resolved: set<CallId>,
    database: seq<DecisionRecord>,
    executed: map<CallId, nat>,
    local: LocalRaces.LocalView,
    accesses: seq<LocalRaces.Access>)

  datatype Step = Call(c: CallId) | Execute(c: CallId) | Overwrite(c: CallId) | Return(c: CallId, ending: Ending)

  function StartWith(usingSupabase: bool, database: seq<DecisionRecord>, earlier: seq<StoreCall>): History {
    History(Start(usingSupabase), {}, {}, database, map[], LocalRaces.LocalView(Capped(earlier), map[]), [])
  }

  // An update without updates returns before it reads.
  predicate Saves(call: StoreCall) {
    call != Update([])
  }

  function Statements(call: StoreCall): nat {
    match call
    case Add(records) => if records == [] then 0 else 1
    case Update(updates) => |updates|
  }

  /** The `k`-th statement of a call: the one insert, or the update of one record. */
  function Executed(database: seq<DecisionRecord>, call: StoreCall, k: nat): seq<DecisionRecord>
    requires k < Statements(call)
  {
    match call
    case Add(records) => database + records
    case Update(updates) => WriteRow(database, updates[k])
  }

  function ExecutedUpTo(database: seq<DecisionRecord>, call: StoreCall, n: nat): seq<DecisionRecord>
    requires n <= Statements(call)
  {
    if n == 0 then database else Executed(ExecutedUpTo(database, call, n - 1), call, n - 1)
  }

  lemma {:induction false} WrittenOneByOne(database: seq<DecisionRecord>, updates: seq<OutcomeUpdate>, n: nat)
    requires n <= |updates|
    ensures ExecutedUpTo(database, Update(updates), n) == WriteAll(database, updates[..n])
  {
    if n == 0 {
    } else {
      WrittenOneByOne(database, updates, n - 1);
      assert updates[..n][..n - 1] == updates[..n - 1];
    }
  }

  /** All the statements of a call come to the call: the records once, or one pass of the updates. */
  lemma StatementsMakeTheCall(database: seq<DecisionRecord>, call: StoreCall)
    ensures call.Add? ==> ExecutedUpTo(database, call, Statements(call)) == database + call.records
    ensures call.Update? ==>
              ExecutedUpTo(database, call, Statements(call)) == ApplyOutcomeUpdates(database, call.updates)
  {
    if call.Update? {
      WrittenOneByOne(database, call.updates, |call.updates|);
      assert call.updates[..|call.updates|] == call.updates;
      OneWritePerUpdateIsOnePass(database, call.updates);
    } else {
      assert ExecutedUpTo(database, call, 0) == database;
    }
  }

  /** What the store now asked has done for the call all that it was asked. */
  predicate IsDone(calls: CallId -> StoreCall, s: History, c: CallId)
    requires c in s.view.calls
  {
    if s.view.calls[c] == Guarded then c in s.executed && s.executed[c] == Statements(calls(c))
    else Saves(calls(c)) ==> LocalRaces.Write(c) in s.accesses
  }

  /** A statement may be executed after its call was given up; a call succeeds only once it is done. */
  predicate CanStep(calls: CallId -> StoreCall, s: History, step: Step) {
    match step
    case Call(c) => c !in s.begun
    case Execute(c) => c in s.executed && s.executed[c] < Statements(calls(c))
    case Overwrite(c) => c in s.view.calls && c in s.local.seen && LocalRaces.Write(c) !in s.accesses
    case Return(c, ending) => c in s.view.calls && (ending == Succeeded ==> IsDone(calls, s, c))
  }

  function Accessing(calls: CallId -> StoreCall, s: History, a: LocalRaces.Access): History {
    s.(local := LocalRaces.Accessed(calls, s.local, a), accesses := s.accesses + [a])
  }

  /** The local store reads its list as soon as it is called. */
  function CallingLocal(calls: CallId -> StoreCall, s: History, c: CallId): History {
    if Saves(calls(c)) then Accessing(calls, s, LocalRaces.Read(c)) else s
  }

  function Stepped(calls: CallId -> StoreCall, s: History, step: Step): History
    requires CanStep(calls, s, step)
  {
    match step
    case Call(c) =>
      var called := s.(view := Begun(s.view, c), begun := s.begun + {c});
      if s.view.active == Primary then called.(executed := s.executed[c := 0]) else CallingLocal(calls, called, c)
    case Execute(c) =>
      s.(database := Executed(s.database, calls(c), s.executed[c]), executed := s.executed[c := s.executed[c] + 1])
    case Overwrite(c) => Accessing(calls, s, LocalRaces.Write(c))
    case Return(c, ending) =>
      var returned := s.(view := Settled(s.view, c, ending),
                         resolved := if ending == Succeeded then s.resolved + {c} else s.resolved);
      if s.view.calls[c] == Guarded && ending.Failed? then CallingLocal(calls, returned, c) else returned
  }

  /** The state after a sequence of steps; an impossible step is skipped. */
  function Run(calls: CallId -> StoreCall, s: History, steps: seq<Step>): History {
    if steps == [] then s
    else
      var before, step := Run(calls, s, steps[..|steps| - 1]), steps[|steps| - 1];
      if CanStep(calls, before, step) then Stepped(calls, before, step) else before
  }

  // ---- The store a call touched last --------------------------------------------------------------

  function LastTarget(touches: seq<Touch>, c: CallId): Option<Target> {
    if touches == [] then None
    else if touches[|touches| - 1].call == c then Some(touches[|touches| - 1].target)
    else LastTarget(touches[..|touches| - 1], c)
  }

  lemma TouchedLast(touches: seq<Touch>, t: Touch, c: CallId)
    ensures LastTarget(touches + [t], c) == if t.call == c then Some(t.target) else LastTarget(touches, c)
  {
    assert (touches + [t])[..|touches|] == touches;
  }

  // ---- What every step keeps ----------------------------------------------------------------------

  predicate ViewInOrder(s: History) {
    && s.view.calls.Keys <= s.begun && s.resolved <= s.begun && s.resolved !! s.view.calls.Keys
    && s.executed.Keys <= s.begun && s.local.seen.Keys <= s.begun
    && (s.view.active == Primary <==> s.view.usingSupabase && !s.view.fallenBack)
  }

  predicate CallInOrder(calls: CallId -> StoreCall, s: History, c: CallId) {
    && (c in s.local.seen ==> LastTarget(s.view.touches, c) == Some(Fallback))
    && (c in s.view.calls ==>
          if s.view.calls[c] == Guarded then
            LastTarget(s.view.touches, c) == Some(Primary) && c in s.executed && c !in s.local.seen
          else LastTarget(s.view.touches, c) == Some(Fallback) && (Saves(calls(c)) ==> c in s.local.seen))
    && (c in s.resolved ==>
          if LastTarget(s.view.touches, c) == Some(Primary) then
            c in s.executed && s.executed[c] == Statements(calls(c))
          else
            LastTarget(s.view.touches, c) == Some(Fallback)
            && (Saves(calls(c)) ==> LocalRaces.Write(c) in s.accesses))
  }

  ghost predicate CallsInOrder(calls: CallId -> StoreCall, s: History) {
    forall c :: CallInOrder(calls, s, c)
  }

  /** The list holds the records side by side, whatever outcomes were written into them. */
  ghost predicate HeldIn(list: seq<DecisionRecord>, records: seq<DecisionRecord>) {
    exists at: nat :: HeldAt(list, records, at)
  }

  predicate HeldAt(list: seq<DecisionRecord>, records: seq<DecisionRecord>, at: nat) {
    at + |records| <= |list| && forall i | 0 <= i < |records| :: Base(list[at + i]) == Base(records[i])
  }

  ghost predicate DatabaseInOrder(calls: CallId -> StoreCall, s: History) {
    forall c | c in s.executed && calls(c).Add? && s.executed[c] == Statements(calls(c)) ::
      HeldIn(s.database, calls(c).records)
  }

  ghost predicate LocalInOrder(calls: CallId -> StoreCall, earlier: seq<StoreCall>, s: History) {
    && s.local == LocalRaces.Exec(calls, earlier, s.accesses) && LocalRaces.IsSchedule(s.accesses)
    && (forall c :: LocalRaces.Read(c) in s.accesses <==> c in s.local.seen)
  }

  ghost predicate InOrder(calls: CallId -> StoreCall, earlier: seq<StoreCall>, s: History) {
    ViewInOrder(s) && CallsInOrder(calls, s) && DatabaseInOrder(calls, s) && LocalInOrder(calls, earlier, s)
  }

  lemma StepKeepsView(calls: CallId -> StoreCall, s: History, step: Step)
    requires ViewInOrder(s) && CallsInOrder(calls, s) && CanStep(calls, s, step)
    requires step.Return? && s.view.calls[step.c] == Guarded ==> s.view.usingSupabase
    ensures ViewInOrder(Stepped(calls, s, step))
  {
  }

  lemma CallKeepsCall(calls: CallId -> StoreCall, s: History, b: CallId, c: CallId)
    requires ViewInOrder(s) && CallInOrder(calls, s, c) && CanStep(calls, s, Call(b))
    ensures CallInOrder(calls, Stepped(calls, s, Call(b)), c)
  {
    TouchedLast(s.view.touches, Touch(b, s.view.active, s.view.fallenBack), c);
  }

  lemma CallingKeepsOthers(calls: CallId -> StoreCall, s: History, b: CallId, c: CallId)
    requires CallInOrder(calls, s, c) && b != c
    ensures CallInOrder(calls, CallingLocal(calls, s, b), c)
  {
  }

  lemma SettlingKeepsOthers(s: View, b: CallId, ending: Ending, c: CallId)
    requires b in s.calls && b != c
    ensures var s' := Settled(s, b, ending);
            && LastTarget(s'.touches, c) == LastTarget(s.touches, c)
            && (c in s'.calls <==> c in s.calls) && (c in s.calls ==> s'.calls[c] == s.calls[c])
  {
    TouchedLast(s.touches, Touch(b, Fallback, false), c);
  }

  lemma ReturnKeepsOthers(calls: CallId -> StoreCall, s: History, b: CallId, ending: Ending, c: CallId)
    requires CallInOrder(calls, s, c) && CanStep(calls, s, Return(b, ending)) && b != c
    ensures CallInOrder(calls, Stepped(calls, s, Return(b, ending)), c)
  {
    var returned := s.(view := Settled(s.view, b, ending),
                       resolved := if ending == Succeeded then s.resolved + {b} else s.resolved);
    SettlingKeepsOthers(s.view, b, ending, c);
    assert CallInOrder(calls, returned, c);
    CallingKeepsOthers(calls, returned, b, c);
  }

  lemma ReturnKeepsCall(calls: CallId -> StoreCall, s: History, ending: Ending, c: CallId)
    requires ViewInOrder(s) && CallInOrder(calls, s, c) && CanStep(calls, s, Return(c, ending))
    ensures CallInOrder(calls, Stepped(calls, s, Return(c, ending)), c)
  {
    TouchedLast(s.view.touches, Touch(c, Fallback, false), c);
  }

  lemma StepKeepsCall(calls: CallId -> StoreCall, s: History, step: Step, c: CallId)
    requires ViewInOrder(s) && CallInOrder(calls, s, c) && CanStep(calls, s, step)
    ensures CallInOrder(calls, Stepped(calls, s, step), c)
  {
    match step
    case Call(b) => CallKeepsCall(calls, s, b, c);
    case Return(b, ending) =>
      if b == c {
        ReturnKeepsCall(calls, s, ending, c);
      } else {
        ReturnKeepsOthers(calls, s, b, ending, c);
      }
    case _ =>
  }

  lemma HeldAfterUpdate(database: seq<DecisionRecord>, u: OutcomeUpdate, records: seq<DecisionRecord>)
    requires HeldIn(database, records)
    ensures HeldIn(WriteRow(database, u), records)
  {
    var at: nat :| HeldAt(database, records, at);
    assert HeldAt(WriteRow(database, u), records, at);
  }

  lemma HeldAfterInsert(database: seq<DecisionRecord>, more: seq<DecisionRecord>, records: seq<DecisionRecord>)
    requires HeldIn(database, records) || records == more
    ensures HeldIn(database + more, records)
  {
    if records == more {
      assert HeldAt(database + more, records, |database|);
    } else {
      var at: nat :| HeldAt(database, records, at);
      assert HeldAt(database + more, records, at);
    }
  }

  lemma StepKeepsDatabase(calls: CallId -> StoreCall, s: History, step: Step)
    requires ViewInOrder(s) && DatabaseInOrder(calls, s) && CanStep(calls, s, step)
    ensures DatabaseInOrder(calls, Stepped(calls, s, step))
  {
    var s' := Stepped(calls, s, step);
    forall c | c in s'.executed && calls(c).Add? && s'.executed[c] == Statements(calls(c))
      ensures HeldIn(s'.database, calls(c).records)
    {
      if step.Execute? {
        match calls(step.c)
        case Add(records) => HeldAfterInsert(s.database, records, calls(c).records);
        case Update(updates) => HeldAfterUpdate(s.database, updates[s.executed[step.c]], calls(c).records);
      } else if c !in s.executed {
        assert HeldAt(s'.database, calls(c).records, 0);
      }
    }
  }

  lemma ScheduleGrows(accesses: seq<LocalRaces.Access>, a: LocalRaces.Access)
    requires LocalRaces.IsSchedule(accesses) && a !in accesses && (a.Write? ==> LocalRaces.Read(a.c) in accesses)
    ensures LocalRaces.IsSchedule(accesses + [a])
  {
    var longer := accesses + [a];
    forall k | 0 <= k < |longer| && longer[k].Write?
      ensures exists i :: 0 <= i < k && longer[i] == LocalRaces.Read(longer[k].c)
    {
      var i :| 0 <= i < |accesses| && (k < |accesses| ==> i < k) && accesses[i] == LocalRaces.Read(longer[k].c);
      assert longer[i] == accesses[i];
    }
  }

  lemma AccessKeepsLocal(calls: CallId -> StoreCall, earlier: seq<StoreCall>, s: History, a: LocalRaces.Access)
    requires LocalInOrder(calls, earlier, s) && a !in s.accesses
    requires a.Write? ==> LocalRaces.Read(a.c) in s.accesses
    ensures LocalInOrder(calls, earlier, Accessing(calls, s, a))
  {
    ScheduleGrows(s.accesses, a);
    var longer := s.accesses + [a];
    assert longer[..|s.accesses|] == s.accesses;
  }

  lemma CallingKeepsLocal(calls: CallId -> StoreCall, earlier: seq<StoreCall>, s: History, c: CallId)
    requires LocalInOrder(calls, earlier, s) && c !in s.local.seen
    ensures LocalInOrder(calls, earlier, CallingLocal(calls, s, c))
  {
    if Saves(calls(c)) {
      AccessKeepsLocal(calls, earlier, s, LocalRaces.Read(c));
    }
  }

  lemma SameLocal(calls: CallId -> StoreCall, earlier: seq<StoreCall>, s: History, s': History)
    requires LocalInOrder(calls, earlier, s) && s'.local == s.local && s'.accesses == s.accesses
    ensures LocalInOrder(calls, earlier, s')
  {
  }

  lemma StepKeepsLocal(calls: CallId -> StoreCall, earlier: seq<StoreCall>, s: History, step: Step)
    requires ViewInOrder(s) && LocalInOrder(calls, earlier, s)
    requires CallInOrder(calls, s, step.c) && CanStep(calls, s, step)
    ensures LocalInOrder(calls, earlier, Stepped(calls, s, step))
  {
    match step
    case Overwrite(c) => AccessKeepsLocal(calls, earlier, s, LocalRaces.Write(c));
    case Execute(_) => SameLocal(calls, earlier, s, Stepped(calls, s, step));
    case Call(c) =>
      var called := s.(view := Begun(s.view, c), begun := s.begun + {c});
      SameLocal(calls, earlier, s, called);
      SameLocal(calls, earlier, s, called.(executed := s.executed[c := 0]));
      CallingKeepsLocal(calls, earlier, called, c);
    case Return(c, ending) =>
      var returned := s.(view := Settled(s.view, c, ending),
                         resolved := if ending == Succeeded then s.resolved + {c} else s.resolved);
      SameLocal(calls, earlier, s, returned);
      if s.view.calls[c] == Guarded {
        CallingKeepsLocal(calls, earlier, returned, c);
      }
  }

  // ---- Every run ----------------------------------------------------------------------------------

  /** Runs of the joint system are runs of the resilient store, so all that holds of those holds of its
      part in these. */
  lemma {:induction false} ViewIsReached(calls: CallId -> StoreCall, usingSupabase: bool,
                                         database: seq<DecisionRecord>, earlier: seq<StoreCall>, steps: seq<Step>)
    returns (events: seq<Event>)
    ensures var s := Run(calls, StartWith(usingSupabase, database, earlier), steps);
            s.view == Exec(Start(usingSupabase), events) && InOrder(calls, earlier, s)
  {
    if steps == [] {
      events := [];
    } else {
      events := ViewIsReached(calls, usingSupabase, database, earlier, steps[..|steps| - 1]);
      var s := Run(calls, StartWith(usingSupabase, database, earlier), steps[..|steps| - 1]);
      var step := steps[|steps| - 1];
      if CanStep(calls, s, step) {
        EveryStateIsCoherent(usingSupabase, events);
        StepKeepsOrder(calls, earlier, s, step);
        var more := OneStep(usingSupabase, events, calls, s, step);
        events := events + more;
      }
    }
  }

  lemma StepKeepsOrder(calls: CallId -> StoreCall, earlier: seq<StoreCall>, s: History, step: Step)
    requires InOrder(calls, earlier, s) && Coherent(s.view) && CanStep(calls, s, step)
    ensures InOrder(calls, earlier, Stepped(calls, s, step))
  {
    assert CallInOrder(calls, s, step.c);
    StepKeepsView(calls, s, step);
    forall c
      ensures CallInOrder(calls, Stepped(calls, s, step), c)
    {
      assert CallInOrder(calls, s, c);
      StepKeepsCall(calls, s, step, c);
    }
    StepKeepsDatabase(calls, s, step);
    StepKeepsLocal(calls, earlier, s, step);
  }

  lemma OneStep(usingSupabase: bool, events: seq<Event>, calls: CallId -> StoreCall, s: History, step: Step)
    returns (more: seq<Event>)
    requires ViewInOrder(s) && s.view == Exec(Start(usingSupabase), events) && CanStep(calls, s, step)
    ensures Exec(Start(usingSupabase), events + more) == Stepped(calls, s, step).view
  {
    match step
    case Call(c) =>
      more := [Begin(c)];
      ExecOne(Start(usingSupabase), events, Begin(c));
    case Return(c, ending) =>
      more := [Settle(c, ending)];
      ExecOne(Start(usingSupabase), events, Settle(c, ending));
    case _ =>
      more := [];
      assert events + more == events;
  }

  // ---- What a resolved call can rely on -----------------------------------------------------------

  lemma HeldAfterCall(history: seq<DecisionRecord>, call: StoreCall, records: seq<DecisionRecord>)
    requires HeldIn(history, records)
    ensures call.Add? ==> HeldIn(call.records + history, records)
    ensures call.Update? ==> HeldIn(ApplyOutcomeUpdates(history, call.updates), records)
  {
    var at: nat :| HeldAt(history, records, at);
    match call
    case Add(added) => assert HeldAt(added + history, records, |added| + at);
    case Update(updates) => assert HeldAt(ApplyOutcomeUpdates(history, updates), records, at);
  }

  lemma {:induction false} WrittenIsHeld(calls: CallId -> StoreCall, earlier: seq<StoreCall>,
                                         accesses: seq<LocalRaces.Access>, c: CallId)
    requires LocalRaces.Write(c) in accesses && calls(c).Add?
    ensures HeldIn(Uncapped(earlier + LocalRaces.Written(calls, accesses)), calls(c).records)
  {
    var init, last := accesses[..|accesses| - 1], accesses[|accesses| - 1];
    var before, history := earlier + LocalRaces.Written(calls, init), earlier + LocalRaces.Written(calls, accesses);
    if last.Write? {
      assert history[..|history| - 1] == before;
    }
    if last == LocalRaces.Write(c) {
      assert HeldAt(Uncapped(history), calls(c).records, 0);
    } else {
      WrittenIsHeld(calls, earlier, init, c);
      if last.Write? {
        HeldAfterCall(Uncapped(before), calls(last.c), calls(c).records);
      }
    }
  }

  /** The local list is the capped history of the calls begun or repeated there that have written. */
  ghost predicate LocalIsHistory(calls: CallId -> StoreCall, earlier: seq<StoreCall>, s: History) {
    s.local.stored == FirstEntries(Uncapped(earlier + LocalRaces.Written(calls, s.accesses)))
  }

  lemma HistoryOfTheLocalList(calls: CallId -> StoreCall, earlier: seq<StoreCall>, s: History)
    requires LocalInOrder(calls, earlier, s)
    ensures LocalIsHistory(calls, earlier, s) <==>
            LocalRaces.IsHistory(calls, earlier, s.accesses, |s.accesses|)
  {
    assert s.accesses[..|s.accesses|] == s.accesses;
    CappedStoreRefinesHistory(earlier + LocalRaces.Written(calls, s.accesses));
  }

  lemma UndisturbedIsHistory(calls: CallId -> StoreCall, earlier: seq<StoreCall>, s: History)
    requires LocalInOrder(calls, earlier, s) && LocalRaces.Undisturbed(s.accesses)
    ensures LocalIsHistory(calls, earlier, s)
  {
    LocalRaces.UndisturbedKeepsHistory(calls, earlier, s.accesses, |s.accesses|);
    HistoryOfTheLocalList(calls, earlier, s);
  }

  /** An `addRecords` call that has resolved has its records in the store it touched last: in the
      database, whatever else happened, and in the history of the local list, which is that history cut
      to its first 500 entries if no call wrote between another's read and write. */
  lemma ResolvedRecordsAreHeld(calls: CallId -> StoreCall, usingSupabase: bool, database: seq<DecisionRecord>,
                               earlier: seq<StoreCall>, steps: seq<Step>, c: CallId)
    requires c in Run(calls, StartWith(usingSupabase, database, earlier), steps).resolved && calls(c).Add?
    ensures var s := Run(calls, StartWith(usingSupabase, database, earlier), steps);
            match LastTarget(s.view.touches, c)
            case Some(Primary) => HeldIn(s.database, calls(c).records)
            case Some(Fallback) =>
              && HeldIn(Uncapped(earlier + LocalRaces.Written(calls, s.accesses)), calls(c).records)
              && (LocalRaces.Undisturbed(s.accesses) ==> LocalIsHistory(calls, earlier, s))
            case None => false
  {
    var s := Run(calls, StartWith(usingSupabase, database, earlier), steps);
    var events := ViewIsReached(calls, usingSupabase, database, earlier, steps);
    assert CallInOrder(calls, s, c);
    if LastTarget(s.view.touches, c) == Some(Fallback) {
      WrittenIsHeld(calls, earlier, s.accesses, c);
      if LocalRaces.Undisturbed(s.accesses) {
        UndisturbedIsHistory(calls, earlier, s);
      }
    }
  }

  /** Only calls that touched the fallback last have written to the local list. */
  lemma OnlyFallbackCallsWrite(calls: CallId -> StoreCall, usingSupabase: bool, database: seq<DecisionRecord>,
                               earlier: seq<StoreCall>, steps: seq<Step>, c: CallId)
    requires LocalRaces.Write(c) in Run(calls, StartWith(usingSupabase, database, earlier), steps).accesses
    ensures LastTarget(Run(calls, StartWith(usingSupabase, database, earlier), steps).view.touches, c) == Some(Fallback)
  {
    var s := Run(calls, StartWith(usingSupabase, database, earlier), steps);
    var events := ViewIsReached(calls, usingSupabase, database, earlier, steps);
    var k :| 0 <= k < |s.accesses| && s.accesses[k] == LocalRaces.Write(c);
    assert LocalRaces.Read(c) in s.accesses;
    assert CallInOrder(calls, s, c);
  }

  // ---- Exactly when the local list keeps the history ----------------------------------------------

  /** In every run whose accesses to the local list are the first of `accesses`, whatever is saved and
      whichever store the session starts with, the list is the capped history of its calls. */
  ghost predicate ListKeepsHistory(accesses: seq<LocalRaces.Access>) {
    forall calls: CallId -> StoreCall, usingSupabase: bool, database: seq<DecisionRecord>,
           earlier: seq<StoreCall>, steps: seq<Step> ::
      var s := Run(calls, StartWith(usingSupabase, database, earlier), steps);
      s.accesses <= accesses ==> LocalIsHistory(calls, earlier, s)
  }

  function StepOf(a: LocalRaces.Access): Step {
    match a
    case Read(c) => Call(c)
    case Write(c) => Overwrite(c)
  }

  function StepsOf(accesses: seq<LocalRaces.Access>): seq<Step> {
    seq(|accesses|, k requires 0 <= k < |accesses| => StepOf(accesses[k]))
  }

  ghost predicate Follows(s: History, accesses: seq<LocalRaces.Access>) {
    s.accesses == accesses && s.begun == s.view.calls.Keys == s.local.seen.Keys
  }

  lemma NextAccess(calls: CallId -> StoreCall, accesses: seq<LocalRaces.Access>, s: History, k: nat)
    requires LocalRaces.IsSchedule(accesses) && k < |accesses| && Follows(s, accesses[..k])
    requires LocalInOrder(calls, [], s) && s.view.active == Fallback && forall c :: Saves(calls(c))
    ensures CanStep(calls, s, StepOf(accesses[k]))
    ensures Follows(Stepped(calls, s, StepOf(accesses[k])), accesses[..k + 1])
  {
    var c := accesses[k].c;
    assert accesses[..k + 1] == accesses[..k] + [accesses[k]];
    if accesses[k].Write? {
      var i :| 0 <= i < k && accesses[i] == LocalRaces.Read(c);
      assert s.accesses[i] == LocalRaces.Read(c);
    }
  }

  lemma NeverUsesPrimary(calls: CallId -> StoreCall, steps: seq<Step>)
    ensures var s := Run(calls, StartWith(false, [], []), steps);
            s.view.active == Fallback && LocalInOrder(calls, [], s)
  {
    var events := ViewIsReached(calls, false, [], [], steps);
    EveryStateIsCoherent(false, events);
  }

  /** Without a database every schedule of reads and writes occurs. */
  lemma {:induction false} ScheduleOccurs(calls: CallId -> StoreCall, accesses: seq<LocalRaces.Access>, n: nat)
    requires LocalRaces.IsSchedule(accesses) && n <= |accesses| && forall c :: Saves(calls(c))
    ensures Follows(Run(calls, StartWith(false, [], []), StepsOf(accesses[..n])), accesses[..n])
  {
    if n == 0 {
    } else {
      var steps := StepsOf(accesses[..n]);
      assert steps[..n - 1] == StepsOf(accesses[..n - 1]);
      ScheduleOccurs(calls, accesses, n - 1);
      NeverUsesPrimary(calls, steps[..n - 1]);
      NextAccess(calls, accesses, Run(calls, StartWith(false, [], []), steps[..n - 1]), n - 1);
    }
  }

  /** The local list keeps the history of the calls made or repeated on it, in every run of overlapping
      calls, if and only if no call writes between another's read and write. */
  lemma ListKeepsHistoryExactlyUndisturbed(accesses: seq<LocalRaces.Access>)
    requires LocalRaces.IsSchedule(accesses)
    ensures ListKeepsHistory(accesses) <==> LocalRaces.Undisturbed(accesses)
  {
    if LocalRaces.Undisturbed(accesses) {
      forall calls: CallId -> StoreCall, usingSupabase: bool, database: seq<DecisionRecord>,
             earlier: seq<StoreCall>, steps: seq<Step>
        | Run(calls, StartWith(usingSupabase, database, earlier), steps).accesses <= accesses
        ensures LocalIsHistory(calls, earlier, Run(calls, StartWith(usingSupabase, database, earlier), steps))
      {
        var events := ViewIsReached(calls, usingSupabase, database, earlier, steps);
        UndisturbedIsHistory(calls, earlier, Run(calls, StartWith(usingSupabase, database, earlier), steps));
      }
    } else {
      var r: DecisionRecord := *;
      var i: nat, j: nat, k: nat :| i < j < k < |accesses| && accesses[i].Read?
        && accesses[k] == LocalRaces.Write(accesses[i].c) && !accesses[j].Read?;
      DisturbedListIsNoHistory(accesses, i, j, k, r);
    }
  }

  lemma KeptScheduleIsHistory(calls: CallId -> StoreCall, accesses: seq<LocalRaces.Access>, n: nat)
    requires LocalRaces.IsSchedule(accesses) && n <= |accesses| && forall c :: Saves(calls(c))
    requires ListKeepsHistory(accesses)
    ensures LocalRaces.IsHistory(calls, [], accesses, n)
  {
    var steps := StepsOf(accesses[..n]);
    ScheduleOccurs(calls, accesses, n);
    NeverUsesPrimary(calls, steps);
    HistoryOfTheLocalList(calls, [], Run(calls, StartWith(false, [], []), steps));
    assert accesses[..n][..n] == accesses[..n];
  }

  lemma DisturbedListIsNoHistory(accesses: seq<LocalRaces.Access>, i: nat, j: nat, k: nat, r: DecisionRecord)
    requires LocalRaces.IsSchedule(accesses) && i < j < k < |accesses|
    requires accesses[i].Read? && accesses[j].Write? && accesses[k] == LocalRaces.Write(accesses[i].c)
    ensures !ListKeepsHistory(accesses)
  {
    LocalRaces.DisturbedIsNoHistory(accesses, i, j, k, r);
    if ListKeepsHistory(accesses) {
      KeptScheduleIsHistory(LocalRaces.OnlyAdder(accesses[j].c, r), accesses, k + 1);
    }
  }

  // ---- Two failures, one loss ---------------------------------------------------------------------

  lemma RunOne(calls: CallId -> StoreCall, s: History, steps: seq<Step>, step: Step)
    requires CanStep(calls, Run(calls, s, steps), step)
    ensures Run(calls, s, steps + [step]) == Stepped(calls, Run(calls, s, steps), step)
  {
    assert (steps + [step])[..|steps|] == steps;
  }

  /** Both calls wait to overwrite the empty list that they have read. */
  ghost predicate BothHaveRead(s: History, u: CallId, v: CallId) {
    && s.view.calls == map[u := Retrying, v := Retrying] && s.resolved == {} && s.database == []
    && s.local == LocalRaces.LocalView([], map[u := [], v := []])
    && s.accesses == [LocalRaces.Read(u), LocalRaces.Read(v)]
  }

  lemma BothFail(calls: CallId -> StoreCall, u: CallId, v: CallId, reason: string) returns (steps: seq<Step>)
    requires u != v && Saves(calls(u)) && Saves(calls(v))
    ensures BothHaveRead(Run(calls, StartWith(true, [], []), steps), u, v)
  {
    var s := StartWith(true, [], []);
    RunOne(calls, s, [], Call(u));
    RunOne(calls, s, [] + [Call(u)], Call(v));
    RunOne(calls, s, [] + [Call(u)] + [Call(v)], Return(u, Failed(reason)));
    RunOne(calls, s, [] + [Call(u)] + [Call(v)] + [Return(u, Failed(reason))], Return(v, Failed(reason)));
    steps := [] + [Call(u)] + [Call(v)] + [Return(u, Failed(reason))] + [Return(v, Failed(reason))];
  }

  /** Two calls whose operations fail on the primary are repeated on the local list. If both read it
      before either writes, both resolve, and the records of the first to write are nowhere. */
  lemma RepeatedCallsLoseRecords(calls: CallId -> StoreCall, u: CallId, v: CallId, reason: string)
    returns (steps: seq<Step>)
    requires u != v && calls(u).Add? && calls(v).Add?
    ensures var s := Run(calls, StartWith(true, [], []), steps);
            s.resolved == {u, v} && s.database == [] && s.local.stored == FirstEntries(calls(v).records)
  {
    var s := StartWith(true, [], []);
    steps := BothFail(calls, u, v, reason);
    RunOne(calls, s, steps, Overwrite(u));
    RunOne(calls, s, steps + [Overwrite(u)], Overwrite(v));
    RunOne(calls, s, steps + [Overwrite(u)] + [Overwrite(v)], Return(u, Succeeded));
    RunOne(calls, s, steps + [Overwrite(u)] + [Overwrite(v)] + [Return(u, Succeeded)], Return(v, Succeeded));
    steps := steps + [Overwrite(u)] + [Overwrite(v)] + [Return(u, Succeeded)] + [Return(v, Succeeded)];
  }
}
