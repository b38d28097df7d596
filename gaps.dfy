/**
 * Candidate generation (getStartPoints and its inner tryFindStartPoint): every
 * interior gap of the busy list is scanned in TRY_LATER_MINUTES steps.
 */
module Gaps {
  import opened Periods

  /** Number of starts that fit in a gap of `gap` minutes. */
  function GapCount(gap: int, duration: int): nat {
    if gap >= duration then (gap - duration) / TRY_LATER_MINUTES + 1 else 0
  }

  /** The starts offered in the free gap [a, b): a, a + 30, a + 60, ... */
  function GapPoints(a: int, b: int, duration: int): seq<int> {
    seq(GapCount(b - a, duration), j => a + TRY_LATER_MINUTES * j)
  }

  /** A gap offers exactly the minutes on its 30-minute grid from which the
      activity ends no later than the gap does. */
  lemma GapPointsMembership(a: int, b: int, duration: int, c: int)
    ensures c in GapPoints(a, b, duration) <==>
      a <= c && c + duration <= b && (c - a) % TRY_LATER_MINUTES == 0
  {
    var r := GapPoints(a, b, duration);
    if a <= c && c + duration <= b && (c - a) % TRY_LATER_MINUTES == 0 {
      var j := (c - a) / TRY_LATER_MINUTES;
      assert c == a + TRY_LATER_MINUTES * j;
      assert j < |r| by {
        assert TRY_LATER_MINUTES * j <= b - a - duration;
      }
      assert r[j] == c;
    }
    if c in r {
      var j :| 0 <= j < |r| && r[j] == c;
      assert TRY_LATER_MINUTES * j <= b - a - duration by {
        assert j <= (b - a - duration) / TRY_LATER_MINUTES;
      }
    }
  }

  /** Points of one gap start at the gap, step by 30, and stop with the last
      start that fits: one more step would not. */
  lemma GapPointsShape(a: int, b: int, duration: int)
    ensures var r := GapPoints(a, b, duration);
      (|r| > 0 <==> b - a >= duration) &&
      (|r| > 0 ==> r[0] == a && r[|r| - 1] + duration <= b < r[|r| - 1] + TRY_LATER_MINUTES + duration) &&
      (forall j :: 0 <= j < |r| - 1 ==> r[j + 1] == r[j] + TRY_LATER_MINUTES) &&
      StrictlyAscending(r)
  {
    var r := GapPoints(a, b, duration);
    if |r| > 0 {
      var n := |r| - 1;
      assert n == (b - a - duration) / TRY_LATER_MINUTES;
      assert r[n] == a + TRY_LATER_MINUTES * n;
    }
  }

  /** `tryFindStartPoint`: appends the starts of the gap [startFreeTime,
      endFreeTime) to `points`. */
  method TryFindStartPoint(points: seq<int>, startFreeTime: int, endFreeTime: int, duration: int)
    returns (result: seq<int>)
    ensures result == points + GapPoints(startFreeTime, endFreeTime, duration)
  {
    ghost var all := GapPoints(startFreeTime, endFreeTime, duration);
    ghost var k := 0;
    result := points;
    var changeableStartTime := startFreeTime;
    var gap := endFreeTime - startFreeTime;
    while gap >= duration
      invariant 0 <= k <= |all|
      invariant changeableStartTime == startFreeTime + TRY_LATER_MINUTES * k
      invariant gap == endFreeTime - startFreeTime - TRY_LATER_MINUTES * k
      invariant gap < duration ==> k == |all|
      invariant result == points + all[..k]
    {
      assert all[k] == changeableStartTime;
      assert all[..k + 1] == all[..k] + [all[k]];
      result := result + [changeableStartTime];
      changeableStartTime := changeableStartTime + TRY_LATER_MINUTES;
      gap := gap - TRY_LATER_MINUTES;
      k := k + 1;
    }
    assert all[..k] == all;
  }

  /** The starts of the first n interior gaps, in scanning order. */
  ghost function ScanGaps(periods: seq<Period>, n: nat, duration: int): seq<int>
    requires n == 0 || n < |periods|
  {
    if n == 0 then []
    else ScanGaps(periods, n - 1, duration) + GapPoints(periods[n - 1].to, periods[n].from, duration)
  }

  /** How many interior gaps a list has. */
  function GapsIn(periods: seq<Period>): nat {
    if |periods| == 0 then 0 else |periods| - 1
  }

  ghost function StartPoints(periods: seq<Period>, duration: int): seq<int> {
    ScanGaps(periods, GapsIn(periods), duration)
  }

  /** `getStartPoints`: the starts of every gap between neighbours; a list
      with fewer than two intervals has none. */
  method GetStartPoints(periods: seq<Period>, duration: int) returns (points: seq<int>)
    ensures points == StartPoints(periods, duration)
    ensures |periods| < 2 ==> points == []
  {
    points := [];
    var i := 0;
    while i < |periods| - 1
      invariant 0 <= i <= GapsIn(periods)
      invariant points == ScanGaps(periods, i, duration)
    {
      points := TryFindStartPoint(points, periods[i].to, periods[i + 1].from, duration);
      i := i + 1;
    }
  }

  /** A grid minute c inside the gap after `periods[i]` from which the
      activity fits before `periods[i + 1]`. */
  predicate FitsInGap(periods: seq<Period>, i: int, duration: int, c: int)
    requires 0 <= i < |periods| - 1
  {
    periods[i].to <= c && c + duration <= periods[i + 1].from &&
    (c - periods[i].to) % TRY_LATER_MINUTES == 0
  }

  lemma {:induction false} ScanGapsMembership(periods: seq<Period>, n: nat, duration: int, c: int)
    requires n == 0 || n < |periods|
    ensures c in ScanGaps(periods, n, duration) <==>
      exists i :: 0 <= i < n && FitsInGap(periods, i, duration, c)
  {
    if n > 0 {
      ScanGapsMembership(periods, n - 1, duration, c);
      GapPointsMembership(periods[n - 1].to, periods[n].from, duration, c);
      if FitsInGap(periods, n - 1, duration, c) {
        assert c in GapPoints(periods[n - 1].to, periods[n].from, duration);
      }
    }
  }

  /** The candidates are exactly the grid starts of the interior gaps: no gap
      before the first interval or after the last one is scanned. */
  lemma StartPointsMembership(periods: seq<Period>, duration: int, c: int)
    ensures c in StartPoints(periods, duration) <==>
      exists i :: 0 <= i < |periods| - 1 && FitsInGap(periods, i, duration, c)
  {
    ScanGapsMembership(periods, GapsIn(periods), duration, c);
  }

  lemma AscendingConcat(a: seq<int>, b: seq<int>)
    requires StrictlyAscending(a) && StrictlyAscending(b)
    requires forall i, j :: 0 <= i < |a| && 0 <= j < |b| ==> a[i] < b[j]
    ensures StrictlyAscending(a + b)
  {
  }

  lemma {:induction false} ScanGapsAscending(periods: seq<Period>, n: nat, duration: int)
    requires Separated(periods) && duration > 0 && 0 < n < |periods|
    ensures StrictlyAscending(ScanGaps(periods, n, duration))
    ensures forall j :: 0 <= j < |ScanGaps(periods, n, duration)| ==> ScanGaps(periods, n, duration)[j] < periods[n].from
  {
    var g := GapPoints(periods[n - 1].to, periods[n].from, duration);
    GapPointsShape(periods[n - 1].to, periods[n].from, duration);
    assert forall j :: 0 <= j < |g| ==> periods[n - 1].to <= g[j] && g[j] < periods[n].from by {
      forall j | 0 <= j < |g|
        ensures periods[n - 1].to <= g[j] && g[j] < periods[n].from
      {
        GapPointsMembership(periods[n - 1].to, periods[n].from, duration, g[j]);
      }
    }
    if n > 1 {
      ScanGapsAscending(periods, n - 1, duration);
      var prev := ScanGaps(periods, n - 1, duration);
      assert periods[n - 1].from <= periods[n - 1].to;
      AscendingConcat(prev, g);
    }
  }

  /** For separated intervals and a positive duration the candidates are
      strictly ascending. */
  lemma StartPointsAscending(periods: seq<Period>, duration: int)
    requires Separated(periods) && duration > 0
    ensures StrictlyAscending(StartPoints(periods, duration))
  {
    if |periods| > 1 {
      ScanGapsAscending(periods, |periods| - 1, duration);
    }
  }

  /** A candidate activity overlaps no interval of a separated list. */
  lemma StartPointsFree(periods: seq<Period>, duration: int)
    requires Separated(periods)
    ensures forall c, x :: c in StartPoints(periods, duration) && c <= x < c + duration ==> !Covers(periods, x)
  {
    SeparatedPairwise(periods);
    forall c, x | c in StartPoints(periods, duration) && c <= x < c + duration
      ensures !Covers(periods, x)
    {
      StartPointsMembership(periods, duration, c);
      var i :| 0 <= i < |periods| - 1 && FitsInGap(periods, i, duration, c);
      forall k | 0 <= k < |periods|
        ensures !Contains(periods[k], x)
      {
        if k < i {
          assert periods[k].to < periods[i].from <= periods[i].to;
        } else if k > i + 1 {
          assert periods[i + 1].to < periods[k].from;
        }
      }
    }
  }

  /** Every candidate activity ends before the start of the last interval,
      hence before any bound that all intervals start under. */
  lemma StartPointsBelow(periods: seq<Period>, duration: int, bound: int)
    requires forall k :: 0 <= k < |periods| ==> periods[k].from < bound
    ensures forall c :: c in StartPoints(periods, duration) ==> c + duration < bound
    ensures duration >= 0 ==> forall c :: c in StartPoints(periods, duration) ==> c < bound
  {
    forall c | c in StartPoints(periods, duration)
      ensures c + duration < bound
    {
      StartPointsMembership(periods, duration, c);
    }
  }
}
