/**
 * Bank closures: the bank's one daily open/close pair unrolled into
 * NIGHTS_AMOUNT concrete closed intervals (addBankCloseTimePeriods).
 */
module Closures {
  import opened Periods
  import opened Timestamps

  /** The nights the bank is closed. Night i runs from closing time on day
      i - 1 to opening time on day i. */
  function Nights(open: int, close: int): (r: seq<Period>)
    ensures |r| == NIGHTS_AMOUNT
    ensures r[0] == Period(close - MINUTES_IN_DAY, open)
    ensures forall i :: 0 <= i < |r| ==> r[i].to - r[i].from == MINUTES_IN_DAY - (close - open)
  {
    seq(NIGHTS_AMOUNT, i => Period(close + (i - 1) * MINUTES_IN_DAY, open + i * MINUTES_IN_DAY))
  }

  /** Consecutive nights are exactly one day apart. */
  lemma NightsSpacing(open: int, close: int)
    ensures var r := Nights(open, close);
      forall i :: 0 <= i < NIGHTS_AMOUNT - 1 ==>
        r[i + 1].from == r[i].from + MINUTES_IN_DAY && r[i + 1].to == r[i].to + MINUTES_IN_DAY
  {
  }

  /** The input list is kept as a prefix and the eight nights follow it, in
      order; `bankHours.from` is the opening and `bankHours.to` the closing time. */
  method AddBankCloseTimePeriods(periods: seq<Period>, bankHours: Slot, bankTimeZone: int)
    returns (result: seq<Period>)
    ensures |result| == |periods| + NIGHTS_AMOUNT
    ensures result[..|periods|] == periods
    ensures result[|periods|..] ==
      Nights(GetTimestamp(bankHours.from, bankTimeZone), GetTimestamp(bankHours.to, bankTimeZone))
  {
    ghost var nights := Nights(GetTimestamp(bankHours.from, bankTimeZone), GetTimestamp(bankHours.to, bankTimeZone));
    var bankClosedPeriods: seq<Period> := [];
    for i := 0 to NIGHTS_AMOUNT
      invariant bankClosedPeriods == nights[..i]
    {
      var closed := Period(
        GetTimestamp(bankHours.to, bankTimeZone) + (i - 1) * MINUTES_IN_DAY,
        GetTimestamp(bankHours.from, bankTimeZone) + i * MINUTES_IN_DAY);
      bankClosedPeriods := bankClosedPeriods + [closed];
    }
    assert nights[..NIGHTS_AMOUNT] == nights;
    result := periods + bankClosedPeriods;
    assert result[|periods|..] == bankClosedPeriods;
  }

  /** Nights of a bank that opens before it closes, and is closed less than
      a day, are well formed and separated. */
  lemma NightsSeparated(open: int, close: int)
    requires open < close <= open + MINUTES_IN_DAY
    ensures Separated(Nights(open, close))
  {
  }

  /** Within the unrolled window, a minute lies in some night exactly when the
      bank's daily hours say it is closed. */
  lemma {:induction false} NightsCoverClosedHours(open: int, close: int, x: int)
    requires 0 <= open <= close < MINUTES_IN_DAY
    requires close - MINUTES_IN_DAY <= x < open + (NIGHTS_AMOUNT - 1) * MINUTES_IN_DAY
    ensures Covers(Nights(open, close), x) <==> !(open <= x % MINUTES_IN_DAY < close)
  {
    var nights := Nights(open, close);
    var q, r := x / MINUTES_IN_DAY, x % MINUTES_IN_DAY;
    assert x == q * MINUTES_IN_DAY + r && 0 <= r < MINUTES_IN_DAY;
    if r < open {
      assert 0 <= q < NIGHTS_AMOUNT;
      assert Contains(nights[q], x);
    } else if r >= close {
      assert -1 <= q < NIGHTS_AMOUNT - 1;
      assert Contains(nights[q + 1], x);
    } else {
      forall i | 0 <= i < |nights|
        ensures !Contains(nights[i], x)
      {
        if i <= q {
          assert nights[i].to == open + i * MINUTES_IN_DAY <= open + q * MINUTES_IN_DAY;
        } else {
          assert nights[i].from == close + (i - 1) * MINUTES_IN_DAY >= close + q * MINUTES_IN_DAY;
        }
      }
    }
  }
}
