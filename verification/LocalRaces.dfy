/** Overlapping calls on the capped local list. A call reads the list and some time later overwrites it
    whole; in between other calls may do either. */
module LocalRaces {
  import opened DecisionRecords
  import opened DecisionStores

  type CallId = nat

  datatype Access = Read(c: CallId) | Write(c: CallId)

  /** The stored list, and what each call read of it. */
  datatype LocalView = LocalView(stored: seq<DecisionRecord>, seen: map<CallId, seq<DecisionRecord>>)

  function Accessed(calls: CallId -> StoreCall, s: LocalView, a: Access): LocalView {
    match a
    case Read(c) => s.(seen := s.seen[c := s.stored])
    case Write(c) => if c in s.seen then s.(stored := Kept(s.seen[c], calls(c))) else s
  }

  /** The list starts as earlier sessions left it. */
  function Exec(calls: CallId -> StoreCall, earlier: seq<StoreCall>, accesses: seq<Access>): LocalView {
    if accesses == [] then LocalView(Capped(earlier), map[])
    else Accessed(calls, Exec(calls, earlier, accesses[..|accesses| - 1]), accesses[|accesses| - 1])
  }

  /** The calls that have written, in the order they did. */
  function Written(calls: CallId -> StoreCall, accesses: seq<Access>): seq<StoreCall> {
    if accesses == [] then []
    else
      var before, last := Written(calls, accesses[..|accesses| - 1]), accesses[|accesses| - 1];
      if last.Write? then before + [calls(last.c)] else before
  }

  /** A call reads once, then writes at most once. */
  predicate IsSchedule(accesses: seq<Access>) {
    && (forall i, j | 0 <= i < j < |accesses| :: accesses[i] != accesses[j])
    && (forall k | 0 <= k < |accesses| && accesses[k].Write? ::
          exists i :: 0 <= i < k && accesses[i] == Read(accesses[k].c))
  }

  /** Nothing is written between a call's read and its write. */
  predicate Undisturbed(accesses: seq<Access>) {
    forall i, j, k | 0 <= i < j < k < |accesses| && accesses[i].Read? && accesses[k] == Write(accesses[i].c) ::
      accesses[j].Read?
  }

  function After(calls: CallId -> StoreCall, earlier: seq<StoreCall>, accesses: seq<Access>, n: nat): LocalView
    requires n <= |accesses|
  {
    Exec(calls, earlier, accesses[..n])
  }

  /** After `n` accesses the list is the capped history of the calls that have written. */
  predicate IsHistory(calls: CallId -> StoreCall, earlier: seq<StoreCall>, accesses: seq<Access>, n: nat)
    requires n <= |accesses|
  {
    After(calls, earlier, accesses, n).stored == Capped(earlier + Written(calls, accesses[..n]))
  }

  lemma OneMore(calls: CallId -> StoreCall, earlier: seq<StoreCall>, accesses: seq<Access>, n: nat)
    requires n < |accesses|
    ensures After(calls, earlier, accesses, n + 1) == Accessed(calls, After(calls, earlier, accesses, n), accesses[n])
    ensures Written(calls, accesses[..n + 1]) ==
            if accesses[n].Write? then Written(calls, accesses[..n]) + [calls(accesses[n].c)]
            else Written(calls, accesses[..n])
  {
    assert accesses[..n + 1][..n] == accesses[..n];
  }

  // ---- Undisturbed calls keep the history ---------------------------------------------------------

  lemma {:induction false} SeenSince(calls: CallId -> StoreCall, earlier: seq<StoreCall>, accesses: seq<Access>,
                                     i: nat, n: nat)
    requires IsSchedule(accesses) && i < n <= |accesses| && accesses[i].Read?
    ensures accesses[i].c in After(calls, earlier, accesses, n).seen
    ensures After(calls, earlier, accesses, n).seen[accesses[i].c] == After(calls, earlier, accesses, i).stored
  {
    OneMore(calls, earlier, accesses, n - 1);
    if i < n - 1 {
      SeenSince(calls, earlier, accesses, i, n - 1);
    }
  }

  lemma {:induction false} StoredStays(calls: CallId -> StoreCall, earlier: seq<StoreCall>, accesses: seq<Access>,
                                       i: nat, n: nat)
    requires i <= n <= |accesses| && forall j | i <= j < n :: accesses[j].Read?
    ensures After(calls, earlier, accesses, n).stored == After(calls, earlier, accesses, i).stored
  {
    if i < n {
      OneMore(calls, earlier, accesses, n - 1);
      StoredStays(calls, earlier, accesses, i, n - 1);
    }
  }

  lemma SeenIsStored(calls: CallId -> StoreCall, earlier: seq<StoreCall>, accesses: seq<Access>, n: nat)
    requires IsSchedule(accesses) && Undisturbed(accesses) && n < |accesses| && accesses[n].Write?
    ensures var s := After(calls, earlier, accesses, n);
            accesses[n].c in s.seen && s.seen[accesses[n].c] == s.stored
  {
    var i: nat :| i < n && accesses[i] == Read(accesses[n].c);
    OneMore(calls, earlier, accesses, i);
    SeenSince(calls, earlier, accesses, i, n);
    StoredStays(calls, earlier, accesses, i + 1, n);
  }

  /** A write whose call read what is still there adds its call to the history. */
  lemma UndisturbedWrite(calls: CallId -> StoreCall, earlier: seq<StoreCall>, accesses: seq<Access>, n: nat)
    requires IsSchedule(accesses) && Undisturbed(accesses) && n < |accesses| && accesses[n].Write?
    requires IsHistory(calls, earlier, accesses, n)
    ensures IsHistory(calls, earlier, accesses, n + 1)
  {
    SeenIsStored(calls, earlier, accesses, n);
    OneMore(calls, earlier, accesses, n);
    var before := earlier + Written(calls, accesses[..n]);
    var longer := earlier + Written(calls, accesses[..n + 1]);
    assert longer[..|longer| - 1] == before;
  }

  lemma {:induction false} UndisturbedKeepsHistory(calls: CallId -> StoreCall, earlier: seq<StoreCall>,
                                                   accesses: seq<Access>, n: nat)
    requires IsSchedule(accesses) && Undisturbed(accesses) && n <= |accesses|
    ensures IsHistory(calls, earlier, accesses, n)
  {
    if n == 0 {
      assert earlier + [] == earlier;
    } else {
      UndisturbedKeepsHistory(calls, earlier, accesses, n - 1);
      if accesses[n - 1].Write? {
        UndisturbedWrite(calls, earlier, accesses, n - 1);
      } else {
        OneMore(calls, earlier, accesses, n - 1);
      }
    }
  }

  // ---- Disturbed calls lose some ------------------------------------------------------------------

  /** One call adds a record, every other adds none. */
  function OnlyAdder(d: CallId, r: DecisionRecord): CallId -> StoreCall {
    (c: CallId) => if c == d then Add([r]) else Add([])
  }

  lemma {:induction false} NothingBeforeTheAdder(accesses: seq<Access>, d: CallId, r: DecisionRecord, n: nat)
    requires n <= |accesses| && forall i | 0 <= i < n :: accesses[i] != Write(d)
    ensures var s := After(OnlyAdder(d, r), [], accesses, n);
            s.stored == [] && forall c | c in s.seen :: s.seen[c] == []
  {
    if n == 0 {
    } else {
      NothingBeforeTheAdder(accesses, d, r, n - 1);
      OneMore(OnlyAdder(d, r), [], accesses, n - 1);
    }
  }

  lemma CallAdds(history: seq<StoreCall>, call: StoreCall)
    requires call.Add?
    ensures Capped(history + [call]) != [] <==> call.records != [] || Capped(history) != []
  {
    assert (history + [call])[..|history|] == history;
    assert Capped(history + [call]) == FirstEntries(call.records + Capped(history));
  }

  /** Of a written history that holds the adder's call the list keeps its record. */
  lemma {:induction false} HistoryHasTheRecord(accesses: seq<Access>, d: CallId, r: DecisionRecord, j: nat, n: nat)
    requires j < n <= |accesses| && accesses[j] == Write(d)
    ensures Capped(Written(OnlyAdder(d, r), accesses[..n])) != []
  {
    var calls := OnlyAdder(d, r);
    OneMore(calls, [], accesses, n - 1);
    if j < n - 1 {
      HistoryHasTheRecord(accesses, d, r, j, n - 1);
    }
    if accesses[n - 1].Write? {
      CallAdds(Written(calls, accesses[..n - 1]), calls(accesses[n - 1].c));
    }
  }

  /** Call `d` writes between the read and the write of another: the record it added is gone. */
  lemma DisturbedCallLosesRecord(accesses: seq<Access>, i: nat, j: nat, k: nat, r: DecisionRecord)
    requires IsSchedule(accesses) && i < j < k < |accesses|
    requires accesses[i].Read? && accesses[j].Write? && accesses[k] == Write(accesses[i].c)
    ensures After(OnlyAdder(accesses[j].c, r), [], accesses, k + 1).stored == []
  {
    var calls := OnlyAdder(accesses[j].c, r);
    NothingBeforeTheAdder(accesses, accesses[j].c, r, i);
    SeenSince(calls, [], accesses, i, k);
    OneMore(calls, [], accesses, k);
  }

  lemma DisturbedIsNoHistory(accesses: seq<Access>, i: nat, j: nat, k: nat, r: DecisionRecord)
    requires IsSchedule(accesses) && i < j < k < |accesses|
    requires accesses[i].Read? && accesses[j].Write? && accesses[k] == Write(accesses[i].c)
    ensures !IsHistory(OnlyAdder(accesses[j].c, r), [], accesses, k + 1)
  {
    var history := Written(OnlyAdder(accesses[j].c, r), accesses[..k + 1]);
    DisturbedCallLosesRecord(accesses, i, j, k, r);
    HistoryHasTheRecord(accesses, accesses[j].c, r, j, k + 1);
    assert [] + history == history;
  }

  // ---- Exactly ------------------------------------------------------------------------------------

  /** Whatever the calls save, the list is at every moment the capped history of those that have
      written. */
  ghost predicate KeepsHistory(accesses: seq<Access>) {
    forall calls: CallId -> StoreCall, earlier: seq<StoreCall>, n: nat | n <= |accesses| ::
      IsHistory(calls, earlier, accesses, n)
  }

  /** The list keeps the history of its calls if and only if nothing is written between a call's read
      and its write. */
  lemma KeepsHistoryExactlyUndisturbed(accesses: seq<Access>)
    requires IsSchedule(accesses)
    ensures KeepsHistory(accesses) <==> Undisturbed(accesses)
  {
    if Undisturbed(accesses) {
      forall calls: CallId -> StoreCall, earlier: seq<StoreCall>, n: nat | n <= |accesses|
        ensures IsHistory(calls, earlier, accesses, n)
      {
        UndisturbedKeepsHistory(calls, earlier, accesses, n);
      }
    } else {
      var i: nat, j: nat, k: nat :| i < j < k < |accesses| && accesses[i].Read?
        && accesses[k] == Write(accesses[i].c) && !accesses[j].Read?;
      var r: DecisionRecord := *;
      DisturbedIsNoHistory(accesses, i, j, k, r);
    }
  }
}
