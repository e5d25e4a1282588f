/** Redaction of secrets: every string value of a document, at any depth, has every secret replaced by
    a marker; keys and shape stay. */
module Redaction {
  import opened Trades

  const MARKER := "[REDACTED]"
  const WORD := "REDACTED"

  predicate OccursAt(text: string, s: string, k: int) {
    0 <= k && k + |s| <= |text| && text[k..k + |s|] == s
  }

  ghost predicate Contains(text: string, s: string) {
    exists k :: OccursAt(text, s, k)
  }

  // ---- split and join -----------------------------------------------------------------------------

  /** The first place where the separator occurs. */
  function FirstAt(text: string, sep: string, start: nat): (r: Option<nat>)
    requires start <= |text|
    ensures r.Some? ==> OccursAt(text, sep, r.value) && start <= r.value
    ensures forall k | start <= k && (r.None? || k < r.value) :: !OccursAt(text, sep, k)
    decreases |text| - start
  {
    if OccursAt(text, sep, start) then Some(start)
    else if start == |text| then None
    else FirstAt(text, sep, start + 1)
  }

  // The separators are the leftmost ones that do not overlap, as for a string split by a string.
  function Split(text: string, sep: string): (parts: seq<string>)
    requires sep != ""
    ensures parts != []
    decreases |text|
  {
    match FirstAt(text, sep, 0)
    case None => [text]
    case Some(k) => [text[..k]] + Split(text[k + |sep|..], sep)
  }

  function Join(parts: seq<string>, glue: string): string
    requires parts != []
  {
    if |parts| == 1 then parts[0] else parts[0] + glue + Join(parts[1..], glue)
  }

  lemma SliceOfSlice(text: string, at: nat, n: nat, k: nat, m: nat)
    requires at + n <= |text| && k + m <= n
    ensures text[at..at + n][k..k + m] == text[at + k..at + k + m]
  {
    var inner, direct := text[at..at + n][k..k + m], text[at + k..at + k + m];
    assert forall i | 0 <= i < m :: inner[i] == text[at..at + n][k + i] == direct[i];
    assert inner == direct;
  }

  lemma Within(text: string, part: string, at: nat, s: string)
    requires OccursAt(text, part, at) && Contains(part, s)
    ensures Contains(text, s)
  {
    var k :| OccursAt(part, s, k);
    SliceOfSlice(text, at, |part|, k, |s|);
    assert OccursAt(text, s, at + k);
  }

  ghost predicate IsPiece(text: string, p: string) {
    exists at: nat :: OccursAt(text, p, at)
  }

  lemma PiecesOfRest(text: string, k: nat, p: string)
    requires k <= |text| && IsPiece(text[k..], p)
    ensures IsPiece(text, p)
  {
    var at: nat :| OccursAt(text[k..], p, at);
    SliceOfSlice(text, k, |text| - k, at, |p|);
    assert OccursAt(text, p, k + at);
  }

  lemma CutAt(text: string, sep: string, k: nat)
    requires OccursAt(text, sep, k)
    ensures text == text[..k] + sep + text[k + |sep|..]
  {
    assert text == text[..k] + text[k..k + |sep|] + text[k + |sep|..];
  }

  lemma BeforeFirst(text: string, sep: string, k: nat)
    requires sep != "" && FirstAt(text, sep, 0) == Some(k)
    ensures !Contains(text[..k], sep) && IsPiece(text, text[..k])
  {
    forall i | OccursAt(text[..k], sep, i)
      ensures OccursAt(text, sep, i) && i < k
    {
      SliceOfSlice(text, 0, k, i, |sep|);
      assert text[0..k] == text[..k];
    }
    assert OccursAt(text, text[..k], 0);
  }

  /** What the split leaves: pieces of the text without the separator, that the separator joins to the
      text again. */
  lemma {:induction false} SplitIsExact(text: string, sep: string)
    requires sep != ""
    ensures Join(Split(text, sep), sep) == text
    ensures forall p | p in Split(text, sep) :: !Contains(p, sep) && IsPiece(text, p)
    decreases |text|
  {
    match FirstAt(text, sep, 0)
    case None =>
      assert OccursAt(text, text, 0);
    case Some(k) =>
      var rest := text[k + |sep|..];
      BeforeFirst(text, sep, k);
      CutAt(text, sep, k);
      SplitIsExact(rest, sep);
      forall p | p in Split(rest, sep)
        ensures IsPiece(text, p)
      {
        PiecesOfRest(text, k + |sep|, p);
      }
      assert Split(text, sep)[1..] == Split(rest, sep);
  }

  // ---- One text -----------------------------------------------------------------------------------

  function RedactOne(text: string, secret: string): string {
    if secret == "" then text else Join(Split(text, secret), MARKER)
  }

  function Redacted(text: string, secrets: seq<string>): string
    decreases secrets
  {
    if secrets == [] then text else Redacted(RedactOne(text, secrets[0]), secrets[1..])
  }

  method RedactSecrets(text: string, secrets: seq<string>) returns (redacted: string)
    ensures redacted == Redacted(text, secrets)
  {
    redacted := text;
    for i := 0 to |secrets|
      invariant Redacted(redacted, secrets[i..]) == Redacted(text, secrets)
    {
      var secret := secrets[i];
      assert secrets[i..][0] == secret && secrets[i..][1..] == secrets[i + 1..];
      if |secret| == 0 { continue; }
      redacted := Join(Split(redacted, secret), MARKER);
    }
    assert secrets[|secrets|..] == [];
  }

  /** The secret and the marker agree wherever they overlap, with the secret `d` places after the
      marker's start. */
  predicate AgreesAt(s: string, d: int) {
    -|s| < d < |MARKER| && forall j | 0 <= j < |s| && 0 <= d + j < |MARKER| :: MARKER[d + j] == s[j]
  }

  /** No part of the marker, next to any text, can complete the secret. */
  ghost predicate AvoidsMarker(s: string) {
    s != "" && forall d :: !AgreesAt(s, d)
  }

  lemma OccurrenceIsPlaced(a: string, b: string, s: string, k: int)
    requires OccursAt(a + MARKER + b, s, k) && s != ""
    ensures OccursAt(a, s, k) || OccursAt(b, s, k - |a| - |MARKER|) || AgreesAt(s, k - |a|)
  {
    var all := a + MARKER + b;
    if k + |s| <= |a| {
      assert a[k..k + |s|] == all[k..k + |s|];
    } else if |a| + |MARKER| <= k {
      assert b[k - |a| - |MARKER|..][..|s|] == all[k..k + |s|];
    } else {
      forall j | 0 <= j < |s| && 0 <= k - |a| + j < |MARKER|
        ensures MARKER[k - |a| + j] == s[j]
      {
        assert all[k..k + |s|][j] == all[k + j] == MARKER[k - |a| + j];
      }
    }
  }

  lemma MarkerSeparates(a: string, b: string, s: string)
    requires AvoidsMarker(s) && !Contains(a, s) && !Contains(b, s)
    ensures !Contains(a + MARKER + b, s)
  {
    forall k | OccursAt(a + MARKER + b, s, k)
      ensures OccursAt(a, s, k) || OccursAt(b, s, k - |a| - |MARKER|) || AgreesAt(s, k - |a|)
    {
      OccurrenceIsPlaced(a, b, s, k);
    }
  }

  lemma {:induction false} JoinAvoids(parts: seq<string>, s: string)
    requires parts != [] && AvoidsMarker(s) && forall p | p in parts :: !Contains(p, s)
    ensures !Contains(Join(parts, MARKER), s)
  {
    if |parts| > 1 {
      JoinAvoids(parts[1..], s);
      MarkerSeparates(parts[0], Join(parts[1..], MARKER), s);
    }
  }

  /** Redacting one secret removes it, and brings back no other secret that was gone. */
  lemma RedactOneRemoves(text: string, secret: string, s: string)
    requires secret != "" && AvoidsMarker(s) && (s == secret || !Contains(text, s))
    ensures !Contains(RedactOne(text, secret), s)
  {
    SplitIsExact(text, secret);
    forall p | p in Split(text, secret)
      ensures !Contains(p, s)
    {
      if s != secret && Contains(p, s) {
        var at: nat :| OccursAt(text, p, at);
        Within(text, p, at, s);
      }
    }
    JoinAvoids(Split(text, secret), s);
  }

  lemma {:induction false} StaysRemoved(text: string, secrets: seq<string>, s: string)
    requires AvoidsMarker(s) && !Contains(text, s)
    ensures !Contains(Redacted(text, secrets), s)
    decreases secrets
  {
    if secrets == [] {
    } else {
      if secrets[0] != "" { RedactOneRemoves(text, secrets[0], s); }
      StaysRemoved(RedactOne(text, secrets[0]), secrets[1..], s);
    }
  }

  /** A secret that cannot be completed by the marker is gone, whatever the other secrets are. */
  lemma {:induction false} SecretIsRemoved(text: string, secrets: seq<string>, s: string)
    requires s in secrets && AvoidsMarker(s)
    ensures !Contains(Redacted(text, secrets), s)
    decreases secrets
  {
    if s == secrets[0] {
      RedactOneRemoves(text, s, s);
      StaysRemoved(RedactOne(text, s), secrets[1..], s);
    } else {
      SecretIsRemoved(RedactOne(text, secrets[0]), secrets[1..], s);
    }
  }

  lemma {:induction false} UntouchedWithoutSecrets(text: string, secrets: seq<string>)
    requires forall s | s in secrets && s != "" :: !Contains(text, s)
    ensures Redacted(text, secrets) == text
  {
    if secrets == [] {
    } else {
      var first := secrets[0];
      if first != "" {
        assert !Contains(text, first);
        assert FirstAt(text, first, 0).None?;
      }
      UntouchedWithoutSecrets(text, secrets[1..]);
    }
  }

  // ---- Exactly when no secret survives ---------------------------------------------------------------

  predicate NoBrackets(s: string) {
    '[' !in s && ']' !in s
  }

  lemma AgreementShows(s: string, d: int)
    requires s != "" && AgreesAt(s, d)
    ensures '[' in s || ']' in s || OccursAt(WORD, s, d - 1)
  {
    if d <= 0 {
      assert s[-d] == MARKER[d + -d] == '[';
    } else if d + |s| >= |MARKER| {
      assert s[|MARKER| - 1 - d] == MARKER[d + (|MARKER| - 1 - d)] == ']';
    } else {
      assert forall j | 0 <= j < |s| :: s[j] == MARKER[d + j] && WORD[d - 1..d - 1 + |s|][j] == MARKER[d + j];
    }
  }

  /** A secret without brackets can only be completed by the marker if it is inside the word. */
  lemma BracketFreeAvoids(s: string)
    requires s != "" && NoBrackets(s) && !Contains(WORD, s)
    ensures AvoidsMarker(s)
  {
    forall d | AgreesAt(s, d)
      ensures '[' in s || ']' in s || OccursAt(WORD, s, d - 1)
    {
      AgreementShows(s, d);
    }
  }

  lemma JoinShowsMarker(parts: seq<string>)
    requires |parts| > 1
    ensures Contains(Join(parts, MARKER), MARKER)
  {
    var rest := Join(parts[1..], MARKER);
    assert (parts[0] + MARKER + rest)[|parts[0]|..|parts[0]| + |MARKER|] == MARKER;
    assert OccursAt(parts[0] + MARKER + rest, MARKER, |parts[0]|);
  }

  /** A secret that is part of the marker survives: every redaction that changes the text shows it. */
  lemma {:induction false} PartOfMarkerSurvives(text: string, secrets: seq<string>, s: string)
    requires Contains(MARKER, s) && Contains(text, s)
    ensures Contains(Redacted(text, secrets), s)
    decreases secrets
  {
    if secrets == [] {
    } else {
      var next := RedactOne(text, secrets[0]);
      if next != text {
        JoinShowsMarker(Split(text, secrets[0]));
        var at :| OccursAt(next, MARKER, at);
        Within(next, MARKER, at, s);
      }
      PartOfMarkerSurvives(next, secrets[1..], s);
    }
  }

  ghost predicate Clean(text: string, secrets: seq<string>) {
    forall s | s in secrets && s != "" :: !Contains(text, s)
  }

  lemma OutsideTheWordIsClean(text: string, secrets: seq<string>)
    requires forall s | s in secrets && s != "" :: NoBrackets(s) && !Contains(WORD, s)
    ensures Clean(Redacted(text, secrets), secrets)
  {
    forall s | s in secrets && s != ""
      ensures !Contains(Redacted(text, secrets), s)
    {
      BracketFreeAvoids(s);
      SecretIsRemoved(text, secrets, s);
    }
  }

  lemma InsideTheWordSurvives(secrets: seq<string>, s: string)
    requires s in secrets && s != "" && Contains(WORD, s)
    ensures !Clean(Redacted(s, secrets), secrets)
  {
    assert OccursAt(MARKER, WORD, 1);
    Within(MARKER, WORD, 1, s);
    assert OccursAt(s, s, 0);
    PartOfMarkerSurvives(s, secrets, s);
  }

  /** For secrets without brackets: every text comes out free of every secret if and only if no secret
      is part of the word "REDACTED". */
  lemma CleanExactlyOutsideTheWord(secrets: seq<string>)
    requires forall s | s in secrets :: NoBrackets(s)
    ensures (forall text :: Clean(Redacted(text, secrets), secrets)) <==>
            (forall s | s in secrets && s != "" :: !Contains(WORD, s))
  {
    if s :| s in secrets && s != "" && Contains(WORD, s) {
      InsideTheWordSurvives(secrets, s);
    } else {
      forall text
        ensures Clean(Redacted(text, secrets), secrets)
      {
        OutsideTheWordIsClean(text, secrets);
      }
    }
  }

  /** A secret that overlaps the marker is completed by it: from the text before it, in a place where
      no earlier occurrence would be redacted instead, or from inside or after the marker. */
  predicate IsCompleted(s: string, d: int) {
    AgreesAt(s, d) && (d < 0 ==> FirstAt(s[..-d] + s, s, 0) == Some(-d))
  }

  lemma FirstIsFirst(text: string, s: string, k: nat)
    requires OccursAt(text, s, k) && forall i | 0 <= i < k :: !OccursAt(text, s, i)
    ensures FirstAt(text, s, 0) == Some(k)
  {
  }

  lemma OccursInMiddle(a: string, s: string, b: string)
    ensures OccursAt(a + s + b, s, |a|)
  {
  }

  lemma OccursInFront(a: string, b: string, s: string, i: nat)
    requires i + |s| <= |a|
    ensures OccursAt(a + b, s, i) == OccursAt(a, s, i)
  {
    assert (a + b)[i..i + |s|] == a[i..i + |s|];
  }

  lemma NotInShorter(text: string, s: string)
    requires |text| < |s|
    ensures Split(text, s) == [text]
  {
    assert FirstAt(text, s, 0).None?;
  }

  lemma FirstInExtension(before: string, s: string, after: string)
    requires s != "" && FirstAt(before + s, s, 0) == Some(|before|)
    ensures FirstAt(before + s + after, s, 0) == Some(|before|)
  {
    OccursInMiddle(before, s, after);
    forall i | 0 <= i < |before|
      ensures !OccursAt(before + s + after, s, i)
    {
      OccursInFront(before + s, after, s, i);
    }
    FirstIsFirst(before + s + after, s, |before|);
  }

  lemma JoinMore(head: string, rest: seq<string>)
    requires rest != []
    ensures Join([head] + rest, MARKER) == head + MARKER + Join(rest, MARKER)
  {
    assert ([head] + rest)[1..] == rest;
  }

  lemma SplitOnce(before: string, s: string, after: string)
    requires s != "" && |after| < |s| && FirstAt(before + s, s, 0) == Some(|before|)
    ensures RedactOne(before + s + after, s) == before + MARKER + after
  {
    var text := before + s + after;
    FirstInExtension(before, s, after);
    assert text[..|before|] == before && text[|before| + |s|..] == after;
    NotInShorter(after, s);
    JoinMore(before, [after]);
  }

  // What precedes the marker in the secret, and what follows it there.
  function Before(s: string, d: int): string
    requires AgreesAt(s, d)
  {
    if d < 0 then s[..-d] else ""
  }

  function Beyond(s: string, d: int): string
    requires AgreesAt(s, d)
  {
    if |MARKER| - d < |s| then s[|MARKER| - d..] else ""
  }

  lemma CompletedShows(s: string, d: int)
    requires AgreesAt(s, d)
    ensures Contains(Before(s, d) + MARKER + Beyond(s, d), s)
  {
    var all := Before(s, d) + MARKER + Beyond(s, d);
    var at := if d < 0 then 0 else d;
    forall j | 0 <= j < |s|
      ensures all[at + j] == s[j]
    {
      CompletedAt(s, d, j);
    }
    OccursPointwise(all, s, at);
  }

  lemma OccursPointwise(text: string, s: string, at: nat)
    requires at + |s| <= |text| && forall j | 0 <= j < |s| :: text[at + j] == s[j]
    ensures OccursAt(text, s, at)
  {
    var found := text[at..at + |s|];
    assert forall j | 0 <= j < |s| :: found[j] == text[at + j] == s[j];
    assert found == s;
  }

  /** Each character of the secret comes before the marker, in it, or after it. */
  lemma CompletedAt(s: string, d: int, j: nat)
    requires AgreesAt(s, d) && j < |s|
    ensures var all, at := Before(s, d) + MARKER + Beyond(s, d), if d < 0 then 0 else d;
            at + |s| <= |all| && all[at + j] == s[j]
  {
    var n := |Before(s, d)|;
    var all, at := Before(s, d) + MARKER + Beyond(s, d), if d < 0 then 0 else d;
    if d + j < 0 {
    } else if d + j < |MARKER| {
      assert all[at + j] == MARKER[d + j];
    } else {
      assert all[at + j] == Beyond(s, d)[d + j - |MARKER|];
    }
  }

  /** The text to give for it: what precedes the marker in the secret, the secret, and what follows. */
  lemma CompletedSurvives(s: string, d: int)
    requires s != "" && IsCompleted(s, d)
    ensures Contains(RedactOne(Before(s, d) + s + Beyond(s, d), s), s)
  {
    if d >= 0 {
      assert "" + s == s;
      OccursInMiddle("", s, "");
      FirstIsFirst(s, s, 0);
    }
    SplitOnce(Before(s, d), s, Beyond(s, d));
    CompletedShows(s, d);
  }

  lemma OccursInWindow(text: string, k: nat, m: nat, s: string, i: nat)
    requires k <= m <= |text| && i + |s| <= m - k
    ensures OccursAt(text[k..m], s, i) == OccursAt(text, s, k + i)
  {
    SliceOfSlice(text, k, m - k, i, |s|);
  }

  lemma NoneInWindow(text: string, s: string, at: nat, k: nat, i: nat)
    requires FirstAt(text, s, 0) == Some(at) && k <= at && i < at - k
    ensures !OccursAt(text[k..at + |s|], s, i)
  {
    assert !OccursAt(text, s, k + i);
    OccursInWindow(text, k, at + |s|, s, i);
  }

  lemma FirstInWindow(text: string, s: string, at: nat, k: nat)
    requires s != "" && FirstAt(text, s, 0) == Some(at) && k <= at
    ensures FirstAt(text[k..at + |s|], s, 0) == Some(at - k)
  {
    var window := text[k..at + |s|];
    assert OccursAt(window, s, at - k) by {
      OccursInWindow(text, k, at + |s|, s, at - k);
    }
    forall i | 0 <= i < at - k
      ensures !OccursAt(window, s, i)
    {
      NoneInWindow(text, s, at, k, i);
    }
    FirstIsFirst(window, s, at - k);
  }

  lemma OverlapStartsInText(text: string, s: string, at: nat, k: nat, more: string)
    requires k < at && at - k < |s| && OccursAt(text, s, at) && OccursAt(text[..at] + more, s, k)
    ensures text[k..at + |s|] == s[..at - k] + s
  {
    var n, all := at - k, text[..at] + more;
    forall j | 0 <= j < n
      ensures text[k..at][j] == s[..n][j]
    {
      assert all[k..k + |s|][j] == all[k + j] == text[k + j];
    }
    assert text[k..at] == s[..n];
    assert text[k..at + |s|] == text[k..at] + text[at..at + |s|];
  }

  lemma OverlapIsCompleted(text: string, s: string, at: nat, k: int, more: string)
    requires s != "" && FirstAt(text, s, 0) == Some(at)
    requires OccursAt(text[..at] + more, s, k) && AgreesAt(s, k - at)
    ensures IsCompleted(s, k - at)
  {
    if k < at {
      OverlapStartsInText(text, s, at, k, more);
      FirstInWindow(text, s, at, k);
    }
  }

  lemma SplitFromFirst(text: string, s: string, at: nat)
    requires s != "" && FirstAt(text, s, 0) == Some(at)
    ensures Split(text, s) == [text[..at]] + Split(text[at + |s|..], s)
  {
  }

  lemma RedactedFromFirst(text: string, s: string, at: nat)
    requires s != "" && FirstAt(text, s, 0) == Some(at)
    ensures RedactOne(text, s) == text[..at] + MARKER + RedactOne(text[at + |s|..], s)
  {
    SplitFromFirst(text, s, at);
    JoinMore(text[..at], Split(text[at + |s|..], s));
  }

  lemma SurvivorIsPlaced(text: string, s: string, at: nat, joined: string, k: int)
    requires s != "" && FirstAt(text, s, 0) == Some(at)
    requires OccursAt(text[..at] + MARKER + joined, s, k)
    ensures OccursAt(joined, s, k - at - |MARKER|) || IsCompleted(s, k - at)
  {
    BeforeFirst(text, s, at);
    OccurrenceIsPlaced(text[..at], joined, s, k);
    if AgreesAt(s, k - at) {
      assert text[..at] + MARKER + joined == text[..at] + (MARKER + joined);
      OverlapIsCompleted(text, s, at, k, MARKER + joined);
    }
  }

  /** A secret found after its redaction is found in the redaction of a later part, or completed. */
  lemma SurvivorMovesOn(text: string, s: string, at: nat, k: int)
    requires s != "" && FirstAt(text, s, 0) == Some(at) && OccursAt(RedactOne(text, s), s, k)
    ensures OccursAt(RedactOne(text[at + |s|..], s), s, k - at - |MARKER|) || IsCompleted(s, k - at)
  {
    RedactedFromFirst(text, s, at);
    SurvivorIsPlaced(text, s, at, RedactOne(text[at + |s|..], s), k);
  }

  lemma NothingToRedact(text: string, s: string)
    requires s != "" && FirstAt(text, s, 0) == None
    ensures !Contains(RedactOne(text, s), s)
  {
  }

  /** A secret found again after its redaction is completed by some marker. */
  lemma {:induction false} SurvivorIsCompleted(text: string, s: string, k: int)
    requires s != "" && OccursAt(RedactOne(text, s), s, k)
    ensures exists d :: IsCompleted(s, d)
    decreases |text|
  {
    match FirstAt(text, s, 0)
    case None => NothingToRedact(text, s);
    case Some(at) =>
      SurvivorMovesOn(text, s, at, k);
      if !IsCompleted(s, k - at) {
        SurvivorIsCompleted(text[at + |s|..], s, k - at - |MARKER|);
      }
  }

  lemma GoneUnlessCompleted(text: string, s: string)
    requires s != "" && forall d :: !IsCompleted(s, d)
    ensures !Contains(RedactOne(text, s), s)
  {
    forall k | OccursAt(RedactOne(text, s), s, k)
      ensures exists d :: IsCompleted(s, d)
    {
      SurvivorIsCompleted(text, s, k);
    }
  }

  ghost predicate GoesFromEveryText(s: string) {
    forall text :: !Contains(RedactOne(text, s), s)
  }

  lemma CompletedStaysSomewhere(s: string, d: int)
    requires s != "" && IsCompleted(s, d)
    ensures !GoesFromEveryText(s)
  {
    CompletedSurvives(s, d);
  }

  lemma NotCompletedGoes(s: string)
    requires s != "" && forall d :: !IsCompleted(s, d)
    ensures GoesFromEveryText(s)
  {
    forall text
      ensures !Contains(RedactOne(text, s), s)
    {
      GoneUnlessCompleted(text, s);
    }
  }

  /** For a single secret with any characters: every text comes out free of it if and only if it is
      completed by no marker. */
  lemma SingleSecretGoneExactly(s: string)
    requires s != ""
    ensures GoesFromEveryText(s) <==> forall d :: !IsCompleted(s, d)
  {
    if d :| IsCompleted(s, d) {
      CompletedStaysSomewhere(s, d);
    } else {
      NotCompletedGoes(s);
    }
  }

  /** A secret with a bracket can come back: "aa[" less "a[" is "a[REDACTED]". */
  lemma BracketedSecretCanSurvive()
    ensures Redacted("aa[", ["a["]) == "a[REDACTED]"
    ensures Contains(Redacted("aa[", ["a["]), "a[")
  {
    var text, s := "aa[", "a[";
    assert text[0 + 1] != s[1] && OccursAt(text, s, 1);
    assert FirstAt(text, s, 0) == Some(1);
    assert text[1 + |s|..] == "" && text[..1] == "a";
    assert forall k :: !OccursAt("", s, k);
    assert Split("", s) == [""];
    assert Split(text, s) == ["a", ""];
    assert Join(["a", ""], MARKER) == "a" + MARKER + Join([""], MARKER);
    assert RedactOne(text, s) == "a[REDACTED]";
    var secrets: seq<string> := ["a["];
    assert secrets[1..] == [];
    assert OccursAt("a[REDACTED]", s, 0);
  }

  // ---- Documents ----------------------------------------------------------------------------------

  datatype Field = Field(key: string, value: Json)

  datatype Json =
    | Text(text: string)
    | Number(number: real)
    | Boolean(flag: bool)
    | Null
    | List(items: seq<Json>)
    | Object(fields: seq<Field>)

  function RedactedDoc(v: Json, secrets: seq<string>): Json {
    match v
    case Text(text) => Text(Redacted(text, secrets))
    case List(items) => List(seq(|items|, i requires 0 <= i < |items| => RedactedDoc(items[i], secrets)))
    case Object(fields) =>
      Object(seq(|fields|, i requires 0 <= i < |fields| => Field(fields[i].key, RedactedDoc(fields[i].value, secrets))))
    case _ => v
  }

  method RedactDeep(v: Json, secrets: seq<string>) returns (r: Json)
    ensures r == RedactedDoc(v, secrets)
  {
    match v
    case Text(text) =>
      var redacted := RedactSecrets(text, secrets);
      r := Text(redacted);
    case List(items) =>
      var redacted: seq<Json> := [];
      for i := 0 to |items|
        invariant |redacted| == i && forall k | 0 <= k < i :: redacted[k] == RedactedDoc(items[k], secrets)
      {
        var item := RedactDeep(items[i], secrets);
        redacted := redacted + [item];
      }
      assert redacted == RedactedDoc(v, secrets).items;
      r := List(redacted);
    case Object(fields) =>
      var result: seq<Field> := [];
      for i := 0 to |fields|
        invariant |result| == i
        invariant forall k | 0 <= k < i :: result[k] == Field(fields[k].key, RedactedDoc(fields[k].value, secrets))
      {
        var nested := RedactDeep(fields[i].value, secrets);
        result := result + [Field(fields[i].key, nested)];
      }
      assert result == RedactedDoc(v, secrets).fields;
      r := Object(result);
    case _ =>
      r := v;
  }

  /** The document without its string values: its keys, its other values, and where each stands. */
  function Shape(v: Json): Json {
    match v
    case Text(_) => Text("")
    case List(items) => List(seq(|items|, i requires 0 <= i < |items| => Shape(items[i])))
    case Object(fields) =>
      Object(seq(|fields|, i requires 0 <= i < |fields| => Field(fields[i].key, Shape(fields[i].value))))
    case _ => v
  }

  /** `s` is a string value somewhere in the document. */
  ghost predicate Holds(v: Json, s: string) {
    match v
    case Text(text) => text == s
    case List(items) => exists i | 0 <= i < |items| :: Holds(items[i], s)
    case Object(fields) => exists i | 0 <= i < |fields| :: Holds(fields[i].value, s)
    case _ => false
  }

  /** Redaction changes no key, no other value and no position. */
  lemma {:induction false} ShapeIsKept(v: Json, secrets: seq<string>)
    ensures Shape(RedactedDoc(v, secrets)) == Shape(v)
  {
    match v
    case List(items) =>
      forall i | 0 <= i < |items| ensures Shape(RedactedDoc(items[i], secrets)) == Shape(items[i]) {
        ShapeIsKept(items[i], secrets);
      }
      assert Shape(RedactedDoc(v, secrets)).items == Shape(v).items;
    case Object(fields) =>
      forall i | 0 <= i < |fields| ensures Shape(RedactedDoc(fields[i].value, secrets)) == Shape(fields[i].value) {
        ShapeIsKept(fields[i].value, secrets);
      }
      assert Shape(RedactedDoc(v, secrets)).fields == Shape(v).fields;
    case _ =>
  }

  lemma {:induction false} HoldsOnlyRedacted(v: Json, secrets: seq<string>, s: string)
    requires Holds(RedactedDoc(v, secrets), s)
    ensures exists text :: Holds(v, text) && s == Redacted(text, secrets)
  {
    match v
    case Text(text) =>
      assert Holds(v, text);
    case List(items) =>
      var i :| 0 <= i < |items| && Holds(RedactedDoc(v, secrets).items[i], s);
      HoldsOnlyRedacted(items[i], secrets, s);
      var text :| Holds(items[i], text) && s == Redacted(text, secrets);
      assert Holds(v, text);
    case Object(fields) =>
      var i :| 0 <= i < |fields| && Holds(RedactedDoc(v, secrets).fields[i].value, s);
      HoldsOnlyRedacted(fields[i].value, secrets, s);
      var text :| Holds(fields[i].value, text) && s == Redacted(text, secrets);
      assert Holds(v, text);
    case _ =>
  }

  /** No string value anywhere in a redacted document contains a secret, for secrets without brackets
      that are not part of the word "REDACTED"; keys, other values and positions are unchanged. */
  lemma NoSecretSurvives(v: Json, secrets: seq<string>, s: string)
    requires forall x | x in secrets :: NoBrackets(x) && (x != "" ==> !Contains(WORD, x))
    requires Holds(RedactedDoc(v, secrets), s)
    ensures Clean(s, secrets)
    ensures Shape(RedactedDoc(v, secrets)) == Shape(v)
  {
    HoldsOnlyRedacted(v, secrets, s);
    ShapeIsKept(v, secrets);
    CleanExactlyOutsideTheWord(secrets);
  }
}
