/** The stable descending sort that ranks candidates by confidence and trades by time. */
module Ranking {

  function WithKey<T>(s: seq<T>, key: T -> real, k: real): seq<T> {
    if s == [] then []
    else if key(s[|s| - 1]) == k then WithKey(s[..|s| - 1], key, k) + [s[|s| - 1]]
    else WithKey(s[..|s| - 1], key, k)
  }

  predicate Descending<T>(s: seq<T>, key: T -> real) {
    forall i, j | 0 <= i < j < |s| :: key(s[i]) >= key(s[j])
  }

  /** The elements with a given key are the same, in the same order. */
  ghost predicate SameRuns<T>(a: seq<T>, b: seq<T>, key: T -> real) {
    forall k: real :: WithKey(a, key, k) == WithKey(b, key, k)
  }

  /** `r` is a stable descending rearrangement of `s`. */
  ghost predicate IsRanking<T>(s: seq<T>, r: seq<T>, key: T -> real) {
    Descending(r, key) && SameRuns(s, r, key)
  }

  function RankDescending<T>(s: seq<T>, key: T -> real): seq<T> {
    if s == [] then []
    else Insert(RankDescending(s[..|s| - 1], key), s[|s| - 1], key)
  }

  // `x` comes after everything already placed, so it goes behind its equals.
  function Insert<T>(s: seq<T>, x: T, key: T -> real): seq<T> {
    if s == [] || key(s[|s| - 1]) >= key(x) then s + [x]
    else Insert(s[..|s| - 1], x, key) + [s[|s| - 1]]
  }

  /** A new element takes the lead only if it is greater. */
  lemma {:induction false} InsertHead<T>(s: seq<T>, x: T, key: T -> real)
    requires Descending(s, key) && s != []
    ensures Insert(s, x, key) != [] && Insert(s, x, key)[0] == if key(s[0]) < key(x) then x else s[0]
  {
    if key(s[|s| - 1]) < key(x) && |s| > 1 {
      InsertHead(s[..|s| - 1], x, key);
    }
  }

  predicate AllAbove<T>(s: seq<T>, key: T -> real, m: real) {
    forall i | 0 <= i < |s| :: key(s[i]) >= m
  }

  lemma {:induction false} InsertAbove<T>(s: seq<T>, x: T, key: T -> real, m: real)
    requires AllAbove(s, key, m) && key(x) >= m
    ensures AllAbove(Insert(s, x, key), key, m)
  {
    if s == [] {
    } else {
      InsertAbove(s[..|s| - 1], x, key, m);
    }
  }

  lemma {:induction false} InsertKeepsOrder<T>(s: seq<T>, x: T, key: T -> real)
    requires Descending(s, key)
    ensures Descending(Insert(s, x, key), key)
  {
    if s != [] && key(s[|s| - 1]) < key(x) {
      InsertKeepsOrder(s[..|s| - 1], x, key);
      InsertAbove(s[..|s| - 1], x, key, key(s[|s| - 1]));
    }
  }

  lemma {:induction false} InsertExtendsRun<T>(s: seq<T>, x: T, key: T -> real, k: real)
    requires Descending(s, key)
    ensures WithKey(Insert(s, x, key), key, k) == if key(x) == k then WithKey(s, key, k) + [x] else WithKey(s, key, k)
  {
    if s == [] || key(s[|s| - 1]) >= key(x) {
      assert (s + [x])[..|s|] == s;
    } else {
      var rest, last := Insert(s[..|s| - 1], x, key), s[|s| - 1];
      InsertExtendsRun(s[..|s| - 1], x, key, k);
      assert (rest + [last])[..|rest|] == rest;
    }
  }

  lemma {:induction false} RankDescendingIsRanking<T>(s: seq<T>, key: T -> real)
    ensures IsRanking(s, RankDescending(s, key), key)
  {
    if s == [] {
    } else {
      var ranked := RankDescending(s[..|s| - 1], key);
      RankDescendingIsRanking(s[..|s| - 1], key);
      InsertKeepsOrder(ranked, s[|s| - 1], key);
      forall k: real
        ensures WithKey(s, key, k) == WithKey(RankDescending(s, key), key, k)
      {
        InsertExtendsRun(ranked, s[|s| - 1], key, k);
      }
    }
  }

  lemma {:induction false} WithKeyMembers<T>(s: seq<T>, key: T -> real, x: T)
    ensures x in WithKey(s, key, key(x)) <==> x in s
  {
    if s == [] {
    } else {
      assert s == s[..|s| - 1] + [s[|s| - 1]];
      WithKeyMembers(s[..|s| - 1], key, x);
    }
  }

  lemma RankingMembers<T>(s: seq<T>, r: seq<T>, key: T -> real, x: T)
    requires SameRuns(s, r, key)
    ensures x in r <==> x in s
  {
    WithKeyMembers(s, key, x);
    WithKeyMembers(r, key, x);
  }

  /** Nothing ranks above the head. */
  lemma HeadIsGreatest<T>(s: seq<T>, r: seq<T>, key: T -> real, x: T)
    requires IsRanking(s, r, key) && x in s
    ensures r != [] && r[0] in s && key(r[0]) >= key(x)
  {
    RankingMembers(s, r, key, x);
    RankingMembers(s, r, key, r[0]);
  }

  /** There is one ranking only: descending order and stability determine it. */
  lemma {:induction false} RankingIsUnique<T>(p: seq<T>, q: seq<T>, key: T -> real)
    requires Descending(p, key) && Descending(q, key) && SameRuns(p, q, key)
    ensures p == q
    decreases |p|
  {
    if p == [] || q == [] {
      if p != [] { RankingMembers(p, q, key, p[0]); }
      if q != [] { RankingMembers(p, q, key, q[0]); }
    } else {
      var p', x := p[..|p| - 1], p[|p| - 1];
      var q', y := q[..|q| - 1], q[|q| - 1];
      RankingMembers(p, q, key, x);
      RankingMembers(p, q, key, y);
      var k := key(x);
      assert key(y) == k;
      assert WithKey(p', key, k) + [x] == WithKey(p, key, k) == WithKey(q, key, k) == WithKey(q', key, k) + [y];
      assert (WithKey(p', key, k) + [x])[|WithKey(p', key, k)|] == x;
      assert (WithKey(q', key, k) + [y])[|WithKey(q', key, k)|] == y;
      assert SameRuns(p', q', key) by {
        forall j: real
          ensures WithKey(p', key, j) == WithKey(q', key, j)
        {
          assert WithKey(p, key, j) == WithKey(q, key, j);
          if j == k {
            assert WithKey(p', key, k) == WithKey(p, key, k)[..|WithKey(p, key, k)| - 1];
            assert WithKey(q', key, k) == WithKey(q, key, k)[..|WithKey(q, key, k)| - 1];
          }
        }
      }
      RankingIsUnique(p', q', key);
      assert p == p[..|p| - 1] + [x];
      assert q == q[..|q| - 1] + [y];
    }
  }
}
