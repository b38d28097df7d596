/**
 * Time normalisation: an already-parsed weekly time becomes an absolute minute
 * in the bank's timezone (getTimestamp), and a minute is split back into
 * day, hour and minute (getTime, used by the cursor's format).
 */
module Timestamps {
  import opened Wrappers
  import opened Periods

  datatype WeekDay = Mon | Tue | Wed | Thu | Fri | Sat | Sun

  /** The `WEEK_DAYS` table: Monday is day 0. */
  function WeekDayNumber(d: WeekDay): (n: nat)
    ensures n < 7
  {
    match d
    case Mon => 0
    case Tue => 1
    case Wed => 2
    case Thu => 3
    case Fri => 4
    case Sat => 5
    case Sun => 6
  }

  lemma WeekDayNumberInjective(a: WeekDay, b: WeekDay)
    ensures WeekDayNumber(a) == WeekDayNumber(b) ==> a == b
  {
  }

  /** A time such as "ПН 10:00+5" after parsing: an optional weekday tag,
      the wall-clock hour and minute, and the timezone in hours. */
  datatype TimeToken = TimeToken(weekDay: Option<WeekDay>, hours: int, minutes: int, timezone: int)

  /** A schedule entry or the bank's working hours: `{from, to}`. */
  datatype Slot = Slot(from: TimeToken, to: TimeToken)

  /** Day offset of a token: its weekday, or 0 when it has no tag. */
  function DayOffset(d: Option<WeekDay>): (n: nat)
    ensures n < 7
    ensures d == None ==> n == 0
  {
    match d
    case None => 0
    case Some(w) => WeekDayNumber(w)
  }

  /** Minutes since Monday 00:00 on the token's own wall clock. */
  function WallClock(token: TimeToken): int {
    DayOffset(token.weekDay) * MINUTES_IN_DAY + token.hours * MINUTES_IN_HOUR + token.minutes
  }

  /** The token's instant seen on the bank's wall clock: the shift is applied
      only when the timezones differ, and then moves the time by the
      difference in hours. */
  function GetTimestamp(token: TimeToken, bankTimeZone: int): (t: int)
    ensures t == WallClock(token) + (bankTimeZone - token.timezone) * MINUTES_IN_HOUR
    ensures token.timezone == bankTimeZone ==> t == WallClock(token)
  {
    var timestamp := DayOffset(token.weekDay) * MINUTES_IN_DAY +
      token.hours * MINUTES_IN_HOUR +
      token.minutes;
    if bankTimeZone != token.timezone then
      timestamp + (bankTimeZone - token.timezone) * MINUTES_IN_HOUR
    else
      timestamp
  }

  /** Two tokens that denote the same instant get the same timestamp. */
  lemma {:induction false} GetTimestampSameInstant(a: TimeToken, b: TimeToken, bankTimeZone: int)
    requires WallClock(a) - a.timezone * MINUTES_IN_HOUR == WallClock(b) - b.timezone * MINUTES_IN_HOUR
    ensures GetTimestamp(a, bankTimeZone) == GetTimestamp(b, bankTimeZone)
  {
    var ta := GetTimestamp(a, bankTimeZone);
    var tb := GetTimestamp(b, bankTimeZone);
    assert ta == WallClock(a) - a.timezone * MINUTES_IN_HOUR + bankTimeZone * MINUTES_IN_HOUR;
    assert tb == WallClock(b) - b.timezone * MINUTES_IN_HOUR + bankTimeZone * MINUTES_IN_HOUR;
  }

  datatype Clock = Clock(day: int, hour: int, minute: int)

  /** `getTime`: day, hour and minute of a timestamp. Math.floor and Dafny's
      division agree here because both divisors are positive. */
  function GetTime(timestamp: int): (c: Clock)
    ensures timestamp == c.day * MINUTES_IN_DAY + c.hour * MINUTES_IN_HOUR + c.minute
    ensures 0 <= c.hour < 24 && 0 <= c.minute < MINUTES_IN_HOUR
    ensures c.day >= 0 <==> timestamp >= 0
  {
    var day := timestamp / MINUTES_IN_DAY;
    var minutesToSubtract := day * MINUTES_IN_DAY;
    var hour := (timestamp - minutesToSubtract) / MINUTES_IN_HOUR;
    var minute := timestamp - (minutesToSubtract + hour * MINUTES_IN_HOUR);
    Clock(day, hour, minute)
  }

  /** The decomposition is unique: a day, hour and minute in range come back
      unchanged. */
  lemma {:induction false} GetTimeOfClock(day: int, hour: int, minute: int)
    requires 0 <= hour < 24 && 0 <= minute < MINUTES_IN_HOUR
    ensures GetTime(day * MINUTES_IN_DAY + hour * MINUTES_IN_HOUR + minute) == Clock(day, hour, minute)
  {
    var t := day * MINUTES_IN_DAY + hour * MINUTES_IN_HOUR + minute;
    var c := GetTime(t);
    assert 0 <= hour * MINUTES_IN_HOUR + minute < MINUTES_IN_DAY;
    assert c.day == day;
  }

  /** A token already in the bank's timezone is rendered with its own weekday,
      hour and minute. */
  lemma {:induction false} TimestampRoundTrip(token: TimeToken, bankTimeZone: int)
    requires token.timezone == bankTimeZone
    requires 0 <= token.hours < 24 && 0 <= token.minutes < MINUTES_IN_HOUR
    ensures GetTime(GetTimestamp(token, bankTimeZone)) == Clock(DayOffset(token.weekDay), token.hours, token.minutes)
  {
    GetTimeOfClock(DayOffset(token.weekDay), token.hours, token.minutes);
  }

  /** `getUnitedSchedule`: every participant's entries, one list after the other. */
  function UniteSchedule(schedule: seq<seq<Slot>>): (r: seq<Slot>)
    ensures forall s :: s in r <==> exists i :: 0 <= i < |schedule| && s in schedule[i]
  {
    if schedule == [] then [] else schedule[0] + UniteSchedule(schedule[1..])
  }

  /** `mapTimeToTimePeriods`: each entry as an interval in bank minutes. An
      entry whose ends share a timezone keeps its length: normalisation is a
      translation. */
  function MapTimeToTimePeriods(slots: seq<Slot>, bankTimeZone: int): (r: seq<Period>)
    ensures |r| == |slots|
    ensures forall i :: 0 <= i < |slots| ==>
      r[i].from == GetTimestamp(slots[i].from, bankTimeZone) && r[i].to == GetTimestamp(slots[i].to, bankTimeZone)
    ensures forall i :: 0 <= i < |slots| && slots[i].from.timezone == slots[i].to.timezone ==>
      r[i].to - r[i].from == WallClock(slots[i].to) - WallClock(slots[i].from)
  {
    seq(|slots|, i requires 0 <= i < |slots| =>
      Period(GetTimestamp(slots[i].from, bankTimeZone), GetTimestamp(slots[i].to, bankTimeZone)))
  }
}
