/**
 * The horizon cut (removePeriodsAfterTimeOut): only intervals that start
 * before the timeout are kept.
 */
module Horizon {
  import opened Periods

  /** `periods.filter(x => x.from < timeout)`. */
  function RemovePeriodsAfterTimeOut(periods: seq<Period>, timeout: int): (r: seq<Period>)
    ensures |r| <= |periods|
    ensures forall k :: 0 <= k < |r| ==> r[k].from < timeout
  {
    if periods == [] then []
    else (if periods[0].from < timeout then [periods[0]] else []) + RemovePeriodsAfterTimeOut(periods[1..], timeout)
  }

  /** An interval is kept exactly when it is in the input and starts before
      the timeout. */
  lemma {:induction false} RemoveMembership(periods: seq<Period>, timeout: int, p: Period)
    ensures p in RemovePeriodsAfterTimeOut(periods, timeout) <==> p in periods && p.from < timeout
  {
    if periods != [] {
      RemoveMembership(periods[1..], timeout, p);
      assert periods == [periods[0]] + periods[1..];
    }
  }

  /** The filter keeps the input order: filtering a concatenation filters
      each part. */
  lemma {:induction false} RemoveConcat(a: seq<Period>, b: seq<Period>, timeout: int)
    ensures RemovePeriodsAfterTimeOut(a + b, timeout) ==
      RemovePeriodsAfterTimeOut(a, timeout) + RemovePeriodsAfterTimeOut(b, timeout)
  {
    if a == [] {
      assert a + b == b;
    } else {
      assert (a + b)[0] == a[0];
      assert (a + b)[1..] == a[1..] + b;
      RemoveConcat(a[1..], b, timeout);
    }
  }

  /** On a list sorted by `from` the kept intervals are a prefix, and every
      dropped one starts at or after the timeout. */
  lemma {:induction false} RemoveSortedIsPrefix(periods: seq<Period>, timeout: int)
    requires SortedByFrom(periods)
    ensures var r := RemovePeriodsAfterTimeOut(periods, timeout);
      r == periods[..|r|] && forall k :: |r| <= k < |periods| ==> periods[k].from >= timeout
  {
    if periods == [] {
      return;
    }
    var rest := periods[1..];
    assert SortedByFrom(rest);
    RemoveSortedIsPrefix(rest, timeout);
    var r' := RemovePeriodsAfterTimeOut(rest, timeout);
    if periods[0].from < timeout {
      assert RemovePeriodsAfterTimeOut(periods, timeout) == [periods[0]] + r';
      assert periods[..1 + |r'|] == [periods[0]] + rest[..|r'|];
      forall k | 1 + |r'| <= k < |periods|
        ensures periods[k].from >= timeout
      {
        assert periods[k] == rest[k - 1];
      }
    } else {
      assert forall k :: 0 <= k < |periods| ==> periods[k].from >= timeout;
      RemoveAllLate(periods, timeout);
    }
  }

  /** On a sorted list the filter cuts where `from` first reaches the timeout. */
  lemma RemoveSortedCut(periods: seq<Period>, timeout: int, n: nat)
    requires SortedByFrom(periods) && n <= |periods|
    requires n > 0 ==> periods[n - 1].from < timeout
    requires n < |periods| ==> periods[n].from >= timeout
    ensures RemovePeriodsAfterTimeOut(periods, timeout) == periods[..n]
  {
    RemoveSortedIsPrefix(periods, timeout);
    var m := |RemovePeriodsAfterTimeOut(periods, timeout)|;
    assert !(m < n);
    assert !(m > n);
  }

  lemma {:induction false} RemoveAllLate(periods: seq<Period>, timeout: int)
    requires forall k :: 0 <= k < |periods| ==> periods[k].from >= timeout
    ensures RemovePeriodsAfterTimeOut(periods, timeout) == []
  {
    if periods != [] {
      RemoveAllLate(periods[1..], timeout);
    }
  }

  /** A prefix of a separated list is separated. */
  lemma RemoveKeepsSeparated(periods: seq<Period>, timeout: int)
    requires Separated(periods)
    ensures Separated(RemovePeriodsAfterTimeOut(periods, timeout))
  {
    SeparatedPairwise(periods);
    RemoveSortedIsPrefix(periods, timeout);
  }
}
