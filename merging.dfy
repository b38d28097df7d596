/**
 * Sorting the busy intervals by `from` (periodsSorter, getBusyPeriods) and
 * merging them in one pass into a disjoint cover (getUnitedTimePeriods,
 * addPeriod).
 */
module Merging {
  import opened Periods

  /** `periodsSorter`: the comparator handed to Array.prototype.sort. */
  function PeriodsSorter(a: Period, b: Period): (r: int)
    ensures r < 0 <==> a.from < b.from
    ensures r > 0 <==> a.from > b.from
    ensures r == 0 <==> a.from == b.from
  {
    if a.from < b.from then -1
    else if a.from > b.from then 1
    else 0
  }

  /** The comparator is antisymmetric and transitive, so it is a consistent
      ordering for the sort. */
  lemma PeriodsSorterConsistent(a: Period, b: Period, c: Period)
    ensures PeriodsSorter(a, b) == -PeriodsSorter(b, a)
    ensures PeriodsSorter(a, b) <= 0 && PeriodsSorter(b, c) <= 0 ==> PeriodsSorter(a, c) <= 0
  {
  }

  function Insert(p: Period, s: seq<Period>): (r: seq<Period>)
    requires SortedByFrom(s)
    ensures SortedByFrom(r)
    ensures multiset(r) == multiset(s) + multiset{p}
  {
    if s == [] then [p]
    else if PeriodsSorter(p, s[0]) <= 0 then
      SortedCons(p, s);
      [p] + s
    else
      var rest := Insert(p, s[1..]);
      assert s == [s[0]] + s[1..];
      LowerBoundOfInsert(s[0], p, s[1..], rest);
      SortedCons(s[0], rest);
      assert multiset([s[0]] + rest) == multiset{s[0]} + multiset(s[1..]) + multiset{p};
      [s[0]] + rest
  }

  /** A bound below `p` and below every entry of `s` is below every entry of
      any permutation of `s` with `p` added. */
  lemma LowerBoundOfInsert(x: Period, p: Period, s: seq<Period>, r: seq<Period>)
    requires x.from <= p.from && forall k :: 0 <= k < |s| ==> x.from <= s[k].from
    requires multiset(r) == multiset(s) + multiset{p}
    ensures forall k :: 0 <= k < |r| ==> x.from <= r[k].from
  {
    forall k | 0 <= k < |r|
      ensures x.from <= r[k].from
    {
      assert r[k] in multiset(r);
      if r[k] != p {
        assert r[k] in multiset(s);
        var i :| 0 <= i < |s| && s[i] == r[k];
      }
    }
  }

  lemma SortedCons(x: Period, s: seq<Period>)
    requires SortedByFrom(s) && (s != [] ==> x.from <= s[0].from)
    ensures SortedByFrom([x] + s)
  {
    assert forall k :: 0 <= k < |s| ==> x.from <= s[k].from;
  }

  /** The sort of `getBusyPeriods`: a permutation of its input, sorted by
      `from`. Entries with equal `from` keep their input order. */
  function SortByFrom(s: seq<Period>): (r: seq<Period>)
    ensures SortedByFrom(r)
    ensures multiset(r) == multiset(s)
  {
    if s == [] then []
    else
      assert s == [s[0]] + s[1..];
      Insert(s[0], SortByFrom(s[1..]))
  }

  /** Sorting a list that is already sorted changes nothing. */
  lemma {:induction false} SortByFromSorted(s: seq<Period>)
    requires SortedByFrom(s)
    ensures SortByFrom(s) == s
  {
    if s != [] {
      SortByFromSorted(s[1..]);
      assert s == [s[0]] + s[1..];
    }
  }

  lemma InsertAtFront(p: Period, s: seq<Period>)
    requires SortedByFrom(s) && (s == [] || p.from <= s[0].from)
    ensures Insert(p, s) == [p] + s
  {
  }

  lemma InsertAfterHead(p: Period, s: seq<Period>)
    requires SortedByFrom(s) && s != [] && s[0].from < p.from
    ensures Insert(p, s) == [s[0]] + Insert(p, s[1..])
  {
  }

  lemma SortConsSorted(p: Period, s: seq<Period>)
    requires SortedByFrom(s)
    ensures SortByFrom([p] + s) == Insert(p, s)
  {
    var t := [p] + s;
    assert t[0] == p && t[1..] == s;
    SortByFromSorted(s);
  }

  /** One interval that belongs between the first two of a sorted list is
      sorted into second place. */
  lemma SortIntoSecond(p: Period, s: seq<Period>)
    requires SortedByFrom(s) && |s| >= 2 && s[0].from < p.from <= s[1].from
    ensures SortByFrom([p] + s) == [s[0], p] + s[1..]
  {
    var tail := s[1..];
    assert SortedByFrom(tail);
    assert tail[0] == s[1];
    InsertAtFront(p, tail);
    SortConsSorted(p, s);
    InsertAfterHead(p, s);
    assert [s[0]] + ([p] + tail) == [s[0], p] + tail;
  }

  /** A permutation covers the same minutes. */
  lemma PermutationCovers(a: seq<Period>, b: seq<Period>, x: int)
    requires multiset(a) == multiset(b)
    ensures Covers(a, x) <==> Covers(b, x)
  {
    if Covers(a, x) {
      var k :| 0 <= k < |a| && Contains(a[k], x);
      assert a[k] in multiset(b);
      var j :| 0 <= j < |b| && b[j] == a[k];
    }
    if Covers(b, x) {
      var k :| 0 <= k < |b| && Contains(b[k], x);
      assert b[k] in multiset(a);
      var j :| 0 <= j < |a| && a[j] == b[k];
    }
  }

  lemma PermutationWellFormed(a: seq<Period>, b: seq<Period>)
    requires multiset(a) == multiset(b) && WellFormed(a)
    ensures WellFormed(b)
  {
    forall k | 0 <= k < |b|
      ensures b[k].from <= b[k].to
    {
      assert b[k] in multiset(a);
      var j :| 0 <= j < |a| && a[j] == b[k];
    }
  }

  /** The test of `addPeriod`: the intervals overlap or touch. */
  predicate Touches(u: Period, p: Period) {
    !(u.from > p.to || u.to < p.from)
  }

  function Min(a: int, b: int): int { if a < b then a else b }
  function Max(a: int, b: int): int { if a < b then b else a }

  /** What one entry of `united` becomes when `p` is added. */
  function Widen(u: Period, p: Period): Period {
    if Touches(u, p) then Period(Min(u.from, p.from), Max(u.to, p.to)) else u
  }

  predicate TouchesAny(united: seq<Period>, p: Period) {
    exists k :: 0 <= k < |united| && Touches(united[k], p)
  }

  /** The list `addPeriod` leaves behind. */
  ghost function Absorb(united: seq<Period>, p: Period): seq<Period> {
    if TouchesAny(united, p) then
      seq(|united|, k requires 0 <= k < |united| => Widen(united[k], p))
    else
      united + [p]
  }

  /** `addPeriod`: with no entry overlapping or touching `period`, it is
      appended and nothing else changes; otherwise the length is kept, every
      touching entry grows to the union of bounds and the others stay. */
  method AddPeriod(united: seq<Period>, period: Period) returns (result: seq<Period>)
    ensures !TouchesAny(united, period) ==> result == united + [period]
    ensures TouchesAny(united, period) ==> |result| == |united|
    ensures TouchesAny(united, period) ==> forall k :: 0 <= k < |united| ==>
      (Touches(united[k], period) ==> result[k] == Period(Min(united[k].from, period.from), Max(united[k].to, period.to))) &&
      (!Touches(united[k], period) ==> result[k] == united[k])
    ensures result == Absorb(united, period)
  {
    result := united;
    var added := false;
    for i := 0 to |united|
      invariant |result| == |united|
      invariant forall k :: 0 <= k < i ==> result[k] == Widen(united[k], period)
      invariant forall k :: i <= k < |united| ==> result[k] == united[k]
      invariant added <==> exists k :: 0 <= k < i && Touches(united[k], period)
    {
      if result[i].from > period.to || result[i].to < period.from {
        continue;
      }
      result := result[i := Period(Min(result[i].from, period.from), Max(result[i].to, period.to))];
      added := true;
    }
    if !added {
      result := result + [period];
    }
  }

  /** The list `getUnitedTimePeriods` builds: each input interval added in turn. */
  ghost function United(s: seq<Period>): seq<Period> {
    if s == [] then [] else Absorb(United(s[..|s| - 1]), s[|s| - 1])
  }

  /** `getUnitedTimePeriods`. For input sorted by `from` with well-formed
      intervals the output is a separated cover of exactly the same minutes. */
  method GetUnitedTimePeriods(busyTimePeriods: seq<Period>) returns (united: seq<Period>)
    ensures united == United(busyTimePeriods)
    ensures SortedByFrom(busyTimePeriods) && WellFormed(busyTimePeriods) ==>
      Separated(united) && forall x :: Covers(united, x) <==> Covers(busyTimePeriods, x)
  {
    united := [];
    for i := 0 to |busyTimePeriods|
      invariant united == United(busyTimePeriods[..i])
    {
      assert busyTimePeriods[..i + 1][..i] == busyTimePeriods[..i];
      united := AddPeriod(united, busyTimePeriods[i]);
    }
    assert busyTimePeriods[..|busyTimePeriods|] == busyTimePeriods;
    if SortedByFrom(busyTimePeriods) && WellFormed(busyTimePeriods) {
      UnitedSeparated(busyTimePeriods);
      UnitedCovers(busyTimePeriods);
    }
  }

  /** The single-pass merge on sorted input: the result is separated and
      starts no later than the last input. */
  lemma {:induction false} UnitedSeparated(s: seq<Period>)
    requires SortedByFrom(s) && WellFormed(s)
    ensures Separated(United(s))
    ensures |s| > 0 ==> |United(s)| > 0
    ensures |s| > 0 ==> forall k :: 0 <= k < |United(s)| ==> United(s)[k].from <= s[|s| - 1].from
  {
    if s == [] {
      return;
    }
    var init, p := s[..|s| - 1], s[|s| - 1];
    assert SortedByFrom(init) && WellFormed(init);
    UnitedSeparated(init);
    var u := United(init);
    assert United(s) == Absorb(u, p);
    if init == [] {
      assert United(s) == [p];
    } else {
      assert forall k :: 0 <= k < |u| ==> u[k].from <= p.from by {
        assert init[|init| - 1].from <= p.from;
      }
      AbsorbSorted(u, p);
    }
  }

  /** ... and it covers exactly the minutes the input covers. */
  lemma {:induction false} UnitedCovers(s: seq<Period>)
    requires SortedByFrom(s) && WellFormed(s)
    ensures forall x :: Covers(United(s), x) <==> Covers(s, x)
  {
    if s == [] {
      return;
    }
    var init, p := s[..|s| - 1], s[|s| - 1];
    assert s == init + [p];
    assert SortedByFrom(init) && WellFormed(init);
    UnitedCovers(init);
    var u := United(init);
    assert United(s) == Absorb(u, p);
    if init != [] {
      UnitedSeparated(init);
      assert forall k :: 0 <= k < |u| ==> u[k].from <= p.from by {
        assert init[|init| - 1].from <= p.from;
      }
      AbsorbSorted(u, p);
    }
    forall x
      ensures Covers(United(s), x) <==> Covers(s, x)
    {
      CoversConcat(init, [p], x);
      CoversSingle(p, x);
    }
  }

  lemma CoversSnoc(s: seq<Period>, p: Period)
    ensures forall x :: Covers(s + [p], x) <==> Covers(s, x) || Contains(p, x)
  {
    forall x
      ensures Covers(s + [p], x) <==> Covers(s, x) || Contains(p, x)
    {
      CoversConcat(s, [p], x);
      CoversSingle(p, x);
    }
  }

  /** One step of the merge: `p` starts no earlier than any entry of the
      separated list `u`, so at most the last entry can touch it. */
  lemma AbsorbSorted(u: seq<Period>, p: Period)
    requires Separated(u) && u != [] && p.from <= p.to
    requires forall k :: 0 <= k < |u| ==> u[k].from <= p.from
    ensures Separated(Absorb(u, p)) && |Absorb(u, p)| > 0
    ensures forall k :: 0 <= k < |Absorb(u, p)| ==> Absorb(u, p)[k].from <= p.from
    ensures forall x :: Covers(Absorb(u, p), x) <==> Covers(u, x) || Contains(p, x)
  {
    var last := |u| - 1;
    SeparatedPairwise(u);
    assert forall k :: 0 <= k < last ==> !Touches(u[k], p) by {
      forall k | 0 <= k < last
        ensures !Touches(u[k], p)
      {
        assert u[k].to < u[last].from <= p.from;
      }
    }
    if Touches(u[last], p) {
      AbsorbIntoLast(u, p);
    } else {
      assert !TouchesAny(u, p);
      CoversSnoc(u, p);
    }
  }

  lemma AbsorbIntoLast(u: seq<Period>, p: Period)
    requires Separated(u) && u != [] && p.from <= p.to
    requires forall k :: 0 <= k < |u| ==> u[k].from <= p.from
    requires forall k :: 0 <= k < |u| - 1 ==> !Touches(u[k], p)
    requires Touches(u[|u| - 1], p)
    ensures Absorb(u, p) == u[..|u| - 1] + [Period(u[|u| - 1].from, Max(u[|u| - 1].to, p.to))]
    ensures Separated(Absorb(u, p))
    ensures forall x :: Covers(Absorb(u, p), x) <==> Covers(u, x) || Contains(p, x)
  {
    var last := |u| - 1;
    var init := u[..last];
    var w := Period(u[last].from, Max(u[last].to, p.to));
    assert TouchesAny(u, p);
    var r := Absorb(u, p);
    assert r == init + [w] by {
      assert forall k :: 0 <= k < last ==> r[k] == u[k];
      assert r[last] == w;
    }
    assert u == init + [u[last]];
    CoversSnoc(init, w);
    CoversSnoc(init, u[last]);
  }

  /** Merge idempotence: an already separated list is left as it is. */
  lemma {:induction false} UnitedOfSeparated(s: seq<Period>)
    requires Separated(s)
    ensures United(s) == s
  {
    if s == [] {
      return;
    }
    var init, p := s[..|s| - 1], s[|s| - 1];
    assert Separated(init);
    UnitedOfSeparated(init);
    SeparatedPairwise(s);
    assert !TouchesAny(init, p) by {
      forall k | 0 <= k < |init|
        ensures !Touches(init[k], p)
      {
        assert init[k] == s[k];
        assert s[k].to < s[|s| - 1].from;
      }
    }
    assert s == init + [p];
  }

  /** Why the sort comes first: added out of order, an interval that bridges
      two entries widens both, and the result overlaps itself. */
  lemma UnsortedInputMayOverlap()
    ensures !Separated(United([Period(0, 1), Period(5, 6), Period(1, 5)]))
  {
    var s := [Period(0, 1), Period(5, 6), Period(1, 5)];
    assert s[..2][..1] == [Period(0, 1)];
    assert United(s[..2][..1]) == [Period(0, 1)] by {
      assert [Period(0, 1)][..0] == [];
    }
    assert United(s[..2]) == [Period(0, 1), Period(5, 6)] by {
      assert !Touches(Period(0, 1), Period(5, 6));
    }
    assert TouchesAny([Period(0, 1), Period(5, 6)], Period(1, 5)) by {
      assert Touches([Period(0, 1), Period(5, 6)][0], Period(1, 5));
    }
    var r := United(s);
    assert r[0] == Period(0, 5);
    assert r[1] == Period(1, 6);
  }
}
