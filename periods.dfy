/**
 * Busy intervals on the reference timeline: minutes counted from Monday 00:00
 * in the bank's timezone. The constants are those of robbery.js.
 */
module Periods {
  const MINUTES_IN_HOUR := 60
  const MINUTES_IN_DAY := 1440
  const TRY_LATER_MINUTES := 30
  const NIGHTS_AMOUNT := 8
  const TIMEOUT_TIME := 3 * 24 * 60

  /** A busy interval `{from, to}`. The minutes from, from + 1, ..., to - 1 are
      taken: the free gap after it starts at `to`. */
  datatype Period = Period(from: int, to: int)

  predicate Contains(p: Period, x: int) {
    p.from <= x < p.to
  }

  /** Minute x is busy according to some interval of s. */
  predicate Covers(s: seq<Period>, x: int) {
    exists k :: 0 <= k < |s| && Contains(s[k], x)
  }

  predicate WellFormed(s: seq<Period>) {
    forall k :: 0 <= k < |s| ==> s[k].from <= s[k].to
  }

  predicate SortedByFrom(s: seq<Period>) {
    forall i, j :: 0 <= i < j < |s| ==> s[i].from <= s[j].from
  }

  /** Consecutive intervals neither overlap nor touch. */
  predicate Separated(s: seq<Period>) {
    WellFormed(s) && forall k :: 0 <= k < |s| - 1 ==> s[k].to < s[k + 1].from
  }

  predicate StrictlyAscending(s: seq<int>) {
    forall i, j :: 0 <= i < j < |s| ==> s[i] < s[j]
  }

  lemma {:induction false} SeparatedStep(s: seq<Period>, i: int, j: int)
    requires Separated(s) && 0 <= i < j < |s|
    ensures s[i].to < s[j].from
    decreases j - i
  {
    if j > i + 1 {
      SeparatedStep(s, i, j - 1);
    }
  }

  /** Separation of neighbours spreads to every pair: the intervals are
      pairwise disjoint, non-touching and sorted. */
  lemma SeparatedPairwise(s: seq<Period>)
    requires Separated(s)
    ensures forall i, j :: 0 <= i < j < |s| ==> s[i].to < s[j].from
    ensures SortedByFrom(s)
  {
    forall i, j | 0 <= i < j < |s|
      ensures s[i].to < s[j].from
    {
      SeparatedStep(s, i, j);
    }
  }

  lemma SeparatedCons(p: Period, s: seq<Period>)
    requires Separated(s) && p.from <= p.to && (s != [] ==> p.to < s[0].from)
    ensures Separated([p] + s)
  {
    var r := [p] + s;
    assert forall k :: 1 <= k < |r| ==> r[k] == s[k - 1];
  }

  lemma SeparatedSuffix(s: seq<Period>, n: nat)
    requires Separated(s) && n <= |s|
    ensures Separated(s[n..])
  {
    var r := s[n..];
    assert forall k :: 0 <= k < |r| ==> r[k] == s[n + k];
  }

  lemma CoversConcat(a: seq<Period>, b: seq<Period>, x: int)
    ensures Covers(a + b, x) <==> Covers(a, x) || Covers(b, x)
  {
    if Covers(a + b, x) {
      var k :| 0 <= k < |a + b| && Contains((a + b)[k], x);
      if k >= |a| {
        assert Contains(b[k - |a|], x);
      }
    }
    if Covers(a, x) {
      var k :| 0 <= k < |a| && Contains(a[k], x);
      assert (a + b)[k] == a[k];
    }
    if Covers(b, x) {
      var k :| 0 <= k < |b| && Contains(b[k], x);
      assert (a + b)[|a| + k] == b[k];
    }
  }

  lemma CoversSingle(p: Period, x: int)
    ensures Covers([p], x) <==> Contains(p, x)
  {
    if Contains(p, x) {
      assert [p][0] == p;
    }
  }
}
