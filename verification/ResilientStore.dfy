/** The resilient decision-history store: a primary (the database, when configured) that is given up
    for the local list the first time it fails, for the rest of the session. Calls overlap: each is
    begun, and settles later, in any order. */
module ResilientStore {
  import opened Trades

  type CallId = nat

  datatype Target = Primary | Fallback

  datatype Mode = Supabase | LocalBrowserStorage

  /** How the operation a call is waiting for ended. */
  datatype Ending = Succeeded | AuthRequired | Failed(reason: string)

  /** What a call is waiting for: an operation it may fall back from, one it may not, or the repeat
      of its operation on the fallback. */
  datatype Waiting = Guarded | Plain | Retrying

  /** An operation handed to one of the two stores, by a call begun before or after the switch. */
  datatype Touch = Touch(call: CallId, target: Target, begunAfterSwitch: bool)

  datatype View = View(
    usingSupabase: bool,
    active: Target,
    fallenBack: bool,
    mode: Mode,
    connected: bool,
    fallbackReason: Option<string>,
    calls: map<CallId, Waiting>,
    touches: seq<Touch>)

  datatype Event = Begin(c: CallId) | Settle(c: CallId, ending: Ending)

  // ---- Specification ----------------------------------------------------------------------------

  function Start(usingSupabase: bool): View {
    View(usingSupabase, if usingSupabase then Primary else Fallback, false,
         if usingSupabase then Supabase else LocalBrowserStorage,
         !usingSupabase, None, map[], [])
  }

  function Begun(s: View, c: CallId): View {
    s.(calls := s.calls[c := if s.fallenBack || !s.usingSupabase then Plain else Guarded],
       touches := s.touches + [Touch(c, s.active, s.fallenBack)])
  }

  function Settled(s: View, c: CallId, ending: Ending): View
    requires c in s.calls
  {
    var rest := s.(calls := s.calls - {c});
    match s.calls[c]
    case Retrying => rest
    case Plain => if ending == Succeeded then rest.(connected := true) else rest
    case Guarded =>
      match ending
      case Succeeded => rest.(connected := true)
      case AuthRequired => rest
      case Failed(reason) =>
        s.(fallenBack := true, active := Fallback, mode := LocalBrowserStorage, connected := true,
           fallbackReason := Some(reason),
           calls := s.calls[c := Retrying], touches := s.touches + [Touch(c, Fallback, false)])
  }

  // Identifiers are not reused while in flight, and only a call in flight can settle.
  predicate Possible(s: View, e: Event) {
    if e.Begin? then e.c !in s.calls else e.c in s.calls
  }

  function Next(s: View, e: Event): View
    requires Possible(s, e)
  {
    match e
    case Begin(c) => Begun(s, c)
    case Settle(c, ending) => Settled(s, c, ending)
  }

  /** The state after a sequence of events; an impossible event is skipped. */
  function Exec(s: View, events: seq<Event>): View {
    if events == [] then s
    else
      var before, e := Exec(s, events[..|events| - 1]), events[|events| - 1];
      if Possible(before, e) then Next(before, e) else before
  }

  // ---- The store --------------------------------------------------------------------------------

  class ResilientDecisionHistoryStore {
    const usingSupabase: bool
    var active: Target
    var fallenBack: bool
    var mode: Mode
    var connected: bool
    var fallbackReason: Option<string>
    var calls: map<CallId, Waiting>
    var touches: seq<Touch>

    function State(): View
      reads this
    {
      View(usingSupabase, active, fallenBack, mode, connected, fallbackReason, calls, touches)
    }

    constructor (primaryConfigured: bool)
      ensures State() == Start(primaryConfigured)
    {
      usingSupabase := primaryConfigured;
      active := if primaryConfigured then Primary else Fallback;
      fallenBack := false;
      mode := if primaryConfigured then Supabase else LocalBrowserStorage;
      connected := !primaryConfigured;
      fallbackReason, calls, touches := None, map[], [];
    }

    /** The part of `run` before its first await: hands the operation to the active store. */
    method BeginRun(c: CallId)
      requires c !in calls
      modifies this
      ensures State() == Begun(old(State()), c)
    {
      touches := touches + [Touch(c, active, fallenBack)];
      if fallenBack || !usingSupabase {
        calls := calls[c := Plain];
      } else {
        calls := calls[c := Guarded];
      }
    }

    /** The part of `run` after an await. */
    method SettleRun(c: CallId, ending: Ending)
      requires c in calls
      modifies this
      ensures State() == Settled(old(State()), c, ending)
    {
      var waiting := calls[c];
      if waiting == Guarded && ending.Failed? {
        fallenBack := true;
        active := Fallback;
        mode := LocalBrowserStorage;
        connected := true;
        fallbackReason := Some(ending.reason);
        calls := calls[c := Retrying];
        touches := touches + [Touch(c, Fallback, false)];
        return;
      }
      calls := calls - {c};
      if waiting != Retrying && ending == Succeeded {
        connected := true;
      }
    }
  }

  // ---- Every run --------------------------------------------------------------------------------

  predicate Coherent(s: View) {
    && (s.active == Primary <==> s.usingSupabase && !s.fallenBack)
    && (s.mode == Supabase <==> s.usingSupabase && !s.fallenBack)
    && (s.fallbackReason.Some? <==> s.fallenBack)
    && (s.fallenBack ==> s.usingSupabase && s.connected)
    && (forall i | 0 <= i < |s.touches| :: s.touches[i].target == Primary ==>
          s.usingSupabase && !s.touches[i].begunAfterSwitch)
    && (forall c | c in s.calls && s.calls[c] == Guarded :: s.usingSupabase)
    && (forall c | c in s.calls && s.calls[c] == Plain :: s.usingSupabase ==> s.fallenBack)
    && (!s.usingSupabase ==> s.connected)
  }

  /** In every state of every run the mode reads "Supabase" exactly while a configured primary has not
      been given up, and no call begun after the switch has touched the primary. */
  lemma {:induction false} EveryStateIsCoherent(usingSupabase: bool, events: seq<Event>)
    ensures Coherent(Exec(Start(usingSupabase), events))
    ensures Exec(Start(usingSupabase), events).usingSupabase == usingSupabase
  {
    if events == [] {
    } else {
      EveryStateIsCoherent(usingSupabase, events[..|events| - 1]);
    }
  }

  /** The switch is never taken back, whatever follows. */
  lemma {:induction false} SwitchIsForGood(usingSupabase: bool, events: seq<Event>, more: seq<Event>)
    requires Exec(Start(usingSupabase), events).active == Fallback
    ensures Exec(Start(usingSupabase), events + more).active == Fallback
    ensures Exec(Start(usingSupabase), events).fallenBack ==> Exec(Start(usingSupabase), events + more).fallenBack
  {
    if more == [] {
      assert events + more == events;
    } else {
      var init := more[..|more| - 1];
      SwitchIsForGood(usingSupabase, events, init);
      assert (events + more)[..|events + more| - 1] == events + init;
      EveryStateIsCoherent(usingSupabase, events + init);
    }
  }

  function Switches(s: View, events: seq<Event>): nat {
    if events == [] then 0
    else
      var init := events[..|events| - 1];
      Switches(s, init) + if Exec(s, init).active != Exec(s, events).active then 1 else 0
  }

  /** The store switches at most once: exactly when it has fallen back. */
  lemma {:induction false} SwitchesOnce(usingSupabase: bool, events: seq<Event>)
    ensures Switches(Start(usingSupabase), events) == if Exec(Start(usingSupabase), events).fallenBack then 1 else 0
  {
    if events == [] {
    } else {
      SwitchesOnce(usingSupabase, events[..|events| - 1]);
      EveryStateIsCoherent(usingSupabase, events[..|events| - 1]);
      EveryStateIsCoherent(usingSupabase, events);
    }
  }

  /** An operation begun on the primary fails in the `k`-th event, other than for want of a sign-in. */
  predicate PrimaryFails(start: View, events: seq<Event>, k: nat)
    requires k < |events|
  {
    var before, e := Exec(start, events[..k]), events[k];
    Possible(before, e) && e.Settle? && before.calls[e.c] == Guarded && e.ending.Failed?
  }

  lemma SameUpTo(start: View, init: seq<Event>, last: Event, k: nat)
    requires k < |init|
    ensures PrimaryFails(start, init + [last], k) <==> PrimaryFails(start, init, k)
  {
    assert (init + [last])[..k] == init[..k];
  }

  /** What makes the store fall back, over whole runs: that at some point an operation begun on the
      primary failed other than for want of a sign-in. Sign-in errors, failures of the fallback and
      failures of unguarded calls never do. */
  lemma {:induction false} FallsBackExactlyOnFailure(usingSupabase: bool, events: seq<Event>)
    ensures var start := Start(usingSupabase);
            Exec(start, events).fallenBack <==> exists k: nat :: k < |events| && PrimaryFails(start, events, k)
  {
    var start := Start(usingSupabase);
    if events == [] {
    } else {
      var init, last, n: nat := events[..|events| - 1], events[|events| - 1], |events| - 1;
      assert events == init + [last];
      FallsBackExactlyOnFailure(usingSupabase, init);
      forall k: nat | k < n
        ensures PrimaryFails(start, events, k) <==> PrimaryFails(start, init, k)
      {
        SameUpTo(start, init, last, k);
      }
      assert PrimaryFails(start, events, n) ==> Exec(start, events).fallenBack;
      if Exec(start, events).fallenBack && !Exec(start, init).fallenBack {
        assert PrimaryFails(start, events, n);
      }
    }
  }

  /** An operation begun on the primary ends in the `k`-th event, other than for want of a sign-in. */
  predicate PrimaryAnswers(start: View, events: seq<Event>, k: nat)
    requires k < |events|
  {
    var before, e := Exec(start, events[..k]), events[k];
    Possible(before, e) && e.Settle? && before.calls[e.c] == Guarded && e.ending != AuthRequired
  }

  /** The status reads "connected" from the start without a primary, and with one exactly since some
      operation begun on it has ended, in success or by falling back. */
  lemma {:induction false} ConnectedExactlyOnceAnswered(usingSupabase: bool, events: seq<Event>)
    ensures var start := Start(usingSupabase);
            Exec(start, events).connected <==>
              !usingSupabase || exists k: nat :: k < |events| && PrimaryAnswers(start, events, k)
  {
    var start := Start(usingSupabase);
    if events == [] {
    } else {
      var init, last, n: nat := events[..|events| - 1], events[|events| - 1], |events| - 1;
      assert events == init + [last];
      ConnectedExactlyOnceAnswered(usingSupabase, init);
      EveryStateIsCoherent(usingSupabase, init);
      forall k: nat | k < n
        ensures PrimaryAnswers(start, events, k) <==> PrimaryAnswers(start, init, k)
      {
        assert (init + [last])[..k] == init[..k];
      }
      assert PrimaryAnswers(start, events, n) ==> Exec(start, events).connected;
      if Exec(start, events).connected && !Exec(start, init).connected {
        assert PrimaryAnswers(start, events, n);
      }
    }
  }

  function ReasonAt(start: View, events: seq<Event>, n: nat): Option<string>
    requires n <= |events|
  {
    Exec(start, events[..n]).fallbackReason
  }

  /** One event writes the reason exactly if it is the failure of an operation begun on the primary. */
  lemma ReasonNext(start: View, events: seq<Event>, k: nat)
    requires k < |events|
    ensures ReasonAt(start, events, k + 1) ==
            if PrimaryFails(start, events, k) then Some(events[k].ending.reason) else ReasonAt(start, events, k)
  {
    assert events[..k + 1] == events[..k] + [events[k]];
    ExecOne(start, events[..k], events[k]);
  }

  /** A reason is that of an earlier failure. */
  lemma {:induction false} ReasonHasFailure(usingSupabase: bool, events: seq<Event>, n: nat) returns (k: nat)
    requires n <= |events| && ReasonAt(Start(usingSupabase), events, n).Some?
    ensures k < n && PrimaryFails(Start(usingSupabase), events, k)
    ensures ReasonAt(Start(usingSupabase), events, n) == Some(events[k].ending.reason)
  {
    var start := Start(usingSupabase);
    if n == 0 {
      assert false;
    } else {
      ReasonNext(start, events, n - 1);
      if PrimaryFails(start, events, n - 1) {
        k := n - 1;
      } else {
        k := ReasonHasFailure(usingSupabase, events, n - 1);
      }
    }
  }

  /** Once there is a reason it stays the same for the rest of the session. */
  ghost predicate ReasonIsSetOnce(start: View, events: seq<Event>) {
    forall n: nat, m: nat | n <= m <= |events| && ReasonAt(start, events, n).Some? ::
      ReasonAt(start, events, m) == ReasonAt(start, events, n)
  }

  ghost predicate FailuresAgree(start: View, events: seq<Event>) {
    forall j: nat, k: nat | j < k < |events| && PrimaryFails(start, events, j) && PrimaryFails(start, events, k) ::
      events[j].ending.reason == events[k].ending.reason
  }

  lemma {:induction false} AgreeingFailuresKeepReason(usingSupabase: bool, events: seq<Event>, n: nat, m: nat)
    requires FailuresAgree(Start(usingSupabase), events)
    requires n <= m <= |events| && ReasonAt(Start(usingSupabase), events, n).Some?
    ensures ReasonAt(Start(usingSupabase), events, m) == ReasonAt(Start(usingSupabase), events, n)
  {
    if m == n {
    } else {
      AgreeingFailuresKeepReason(usingSupabase, events, n, m - 1);
      ReasonNext(Start(usingSupabase), events, m - 1);
      var k := ReasonHasFailure(usingSupabase, events, n);
    }
  }

  lemma SetOnceMeansAgreement(usingSupabase: bool, events: seq<Event>, j: nat, k: nat)
    requires ReasonIsSetOnce(Start(usingSupabase), events) && j < k < |events|
    requires PrimaryFails(Start(usingSupabase), events, j) && PrimaryFails(Start(usingSupabase), events, k)
    ensures events[j].ending.reason == events[k].ending.reason
  {
    ReasonNext(Start(usingSupabase), events, j);
    ReasonNext(Start(usingSupabase), events, k);
    assert ReasonAt(Start(usingSupabase), events, k + 1) == ReasonAt(Start(usingSupabase), events, j + 1);
  }

  /** The reason for the fallback is documented as set once. Over whole sessions it is, if and only if
      all failures of operations begun on the primary give the same reason: overlapping calls can fail
      one after the other, and each overwrites it. */
  lemma ReasonIsSetOnceExactly(usingSupabase: bool, events: seq<Event>)
    ensures ReasonIsSetOnce(Start(usingSupabase), events) <==> FailuresAgree(Start(usingSupabase), events)
  {
    var start := Start(usingSupabase);
    if FailuresAgree(start, events) {
      forall n: nat, m: nat | n <= m <= |events| && ReasonAt(start, events, n).Some?
        ensures ReasonAt(start, events, m) == ReasonAt(start, events, n)
      {
        AgreeingFailuresKeepReason(usingSupabase, events, n, m);
      }
    } else if ReasonIsSetOnce(start, events) {
      forall j: nat, k: nat | j < k < |events| && PrimaryFails(start, events, j) && PrimaryFails(start, events, k)
        ensures events[j].ending.reason == events[k].ending.reason
      {
        SetOnceMeansAgreement(usingSupabase, events, j, k);
      }
    }
  }

  /** Two overlapping calls that both fail: the second reason replaces the first. */
  lemma ReasonCanBeOverwritten()
    ensures var first := [Begin(0), Begin(1), Settle(0, Failed("timeout"))];
            var s, s' := Exec(Start(true), first), Exec(Start(true), first + [Settle(1, Failed("reset"))]);
            s.fallbackReason == Some("timeout") && s'.fallbackReason == Some("reset")
  {
    var e0, e1, e2, e3 := Begin(0), Begin(1), Settle(0, Failed("timeout")), Settle(1, Failed("reset"));
    var s := Start(true);
    ExecOne(s, [], e0);
    ExecOne(s, [e0], e1);
    ExecOne(s, [e0, e1], e2);
    ExecOne(s, [e0, e1, e2], e3);
    assert [] + [e0] == [e0] && [e0] + [e1] == [e0, e1] && [e0, e1] + [e2] == [e0, e1, e2];
  }

  lemma ExecOne(s: View, events: seq<Event>, e: Event)
    ensures Exec(s, events + [e]) == if Possible(Exec(s, events), e) then Next(Exec(s, events), e) else Exec(s, events)
  {
    assert (events + [e])[..|events|] == events;
  }
}
