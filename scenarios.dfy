/**
 * A single meeting inside Monday's opening hours. The candidates are then
 * the two free parts of Monday, followed by all of Tuesday's and Wednesday's
 * opening hours.
 */
module Scenarios {
  import opened Wrappers
  import opened Periods
  import opened Timestamps
  import opened Closures
  import opened Merging
  import opened Horizon
  import opened Gaps
  import opened Robbery
  import opened Guarantees

  /** The busy list sorted: the first night, the meeting, the other nights. */
  lemma MeetingSorted(meeting: Period, open: int, close: int)
    requires 0 <= open < meeting.from <= meeting.to < close < MINUTES_IN_DAY
    ensures var nights := Nights(open, close);
      SortByFrom([meeting] + nights) == [nights[0], meeting] + nights[1..]
  {
    var nights := Nights(open, close);
    NightsSeparated(open, close);
    SeparatedPairwise(nights);
    SortIntoSecond(meeting, nights);
  }

  /** The meeting leaves a free gap on both sides, so the sorted list is
      separated. */
  lemma MeetingSeparated(meeting: Period, open: int, close: int)
    requires 0 <= open < meeting.from <= meeting.to < close < MINUTES_IN_DAY
    ensures var nights := Nights(open, close);
      Separated([nights[0], meeting] + nights[1..])
  {
    var nights := Nights(open, close);
    var rest := nights[1..];
    NightsSeparated(open, close);
    SeparatedSuffix(nights, 1);
    SeparatedCons(meeting, rest);
    SeparatedCons(nights[0], [meeting] + rest);
    assert [nights[0]] + ([meeting] + rest) == [nights[0], meeting] + rest;
  }

  /** The horizon keeps the first night, the meeting and the nights before
      Tuesday, Wednesday and Thursday. */
  lemma MeetingKept(meeting: Period, open: int, close: int)
    requires 0 <= open < meeting.from <= meeting.to < close < MINUTES_IN_DAY
    ensures var nights := Nights(open, close);
      RemovePeriodsAfterTimeOut([nights[0], meeting] + nights[1..], TIMEOUT_TIME) ==
        ([nights[0], meeting] + nights[1..])[..5]
  {
    var nights := Nights(open, close);
    var sorted := [nights[0], meeting] + nights[1..];
    assert RemovePeriodsAfterTimeOut(sorted, TIMEOUT_TIME) == sorted[..5] by {
      MeetingSeparated(meeting, open, close);
      SeparatedPairwise(sorted);
      assert sorted[4] == nights[3] && sorted[5] == nights[4];
      RemoveSortedCut(sorted, TIMEOUT_TIME, 5);
    }
  }

  lemma OneMeetingOnMonday(schedule: seq<seq<Slot>>, duration: int, workingHours: Slot, meeting: Period)
    requires AllBusy(schedule, workingHours) == [meeting] + Nights(Open(workingHours), Close(workingHours))
    requires 0 <= Open(workingHours) < meeting.from <= meeting.to < Close(workingHours) < MINUTES_IN_DAY
    ensures Candidates(schedule, duration, workingHours) ==
      MeetingDayGaps(meeting, Open(workingHours), Close(workingHours), duration)
  {
    MeetingCandidatesKept(schedule, duration, workingHours, meeting);
    MeetingKeptGaps(meeting, Open(workingHours), Close(workingHours), duration);
  }

  /** The candidates are the start points of the five kept intervals. */
  lemma MeetingCandidatesKept(schedule: seq<seq<Slot>>, duration: int, workingHours: Slot, meeting: Period)
    requires AllBusy(schedule, workingHours) == [meeting] + Nights(Open(workingHours), Close(workingHours))
    requires 0 <= Open(workingHours) < meeting.from <= meeting.to < Close(workingHours) < MINUTES_IN_DAY
    ensures var nights := Nights(Open(workingHours), Close(workingHours));
      Candidates(schedule, duration, workingHours) ==
        StartPoints(([nights[0], meeting] + nights[1..])[..5], duration)
  {
    var open, close := Open(workingHours), Close(workingHours);
    var nights := Nights(open, close);
    var sorted := [nights[0], meeting] + nights[1..];
    assert United(SortByFrom(AllBusy(schedule, workingHours))) == sorted by {
      MeetingSorted(meeting, open, close);
      MeetingSeparated(meeting, open, close);
      UnitedOfSeparated(sorted);
    }
    MeetingKept(meeting, open, close);
  }

  /** The gaps of the five kept intervals. */
  lemma MeetingKeptGaps(meeting: Period, open: int, close: int, duration: int)
    requires 0 <= open < meeting.from <= meeting.to < close < MINUTES_IN_DAY
    ensures var nights := Nights(open, close);
      StartPoints(([nights[0], meeting] + nights[1..])[..5], duration) ==
        MeetingDayGaps(meeting, open, close, duration)
  {
    var nights := Nights(open, close);
    var kept := ([nights[0], meeting] + nights[1..])[..5];
    assert kept[0].to == open && kept[1] == meeting;
    assert kept[2] == Period(close, open + MINUTES_IN_DAY);
    assert kept[3] == Period(close + MINUTES_IN_DAY, open + 2 * MINUTES_IN_DAY);
    assert kept[4].from == close + 2 * MINUTES_IN_DAY;
    FiveIntervalGaps(kept, duration, open, meeting.from, meeting.to, close, open + MINUTES_IN_DAY,
      close + MINUTES_IN_DAY, open + 2 * MINUTES_IN_DAY, close + 2 * MINUTES_IN_DAY);
  }

  /** Monday's free time before and after the meeting, then Tuesday's and
      Wednesday's opening hours, each scanned for start points. */
  function MeetingDayGaps(meeting: Period, open: int, close: int, duration: int): seq<int> {
    GapPoints(open, meeting.from, duration) + GapPoints(meeting.to, close, duration) +
      GapPoints(open + MINUTES_IN_DAY, close + MINUTES_IN_DAY, duration) +
      GapPoints(open + 2 * MINUTES_IN_DAY, close + 2 * MINUTES_IN_DAY, duration)
  }

  /** The start points of a five-interval list are those of its four gaps, in order. */
  lemma FiveIntervalGaps(kept: seq<Period>, duration: int, t0: int, f1: int, t1: int, f2: int, t2: int, f3: int, t3: int, f4: int)
    requires |kept| == 5
    requires kept[0].to == t0 && kept[1].from == f1 && kept[1].to == t1 && kept[2].from == f2
    requires kept[2].to == t2 && kept[3].from == f3 && kept[3].to == t3 && kept[4].from == f4
    ensures StartPoints(kept, duration) ==
      GapPoints(t0, f1, duration) + GapPoints(t1, f2, duration) +
      GapPoints(t2, f3, duration) + GapPoints(t3, f4, duration)
  {
    assert GapsIn(kept) == 4;
    assert ScanGaps(kept, 1, duration) == GapPoints(kept[0].to, kept[1].from, duration);
    assert ScanGaps(kept, 2, duration) == ScanGaps(kept, 1, duration) + GapPoints(kept[1].to, kept[2].from, duration);
    assert ScanGaps(kept, 3, duration) == ScanGaps(kept, 2, duration) + GapPoints(kept[2].to, kept[3].from, duration);
    assert ScanGaps(kept, 4, duration) == ScanGaps(kept, 3, duration) + GapPoints(kept[3].to, kept[4].from, duration);
  }

  /** Busy on Monday 10:00-11:30 at UTC+5. */
  const MONDAY_SCHEDULE := [[Slot(TimeToken(Some(Mon), 10, 0, 5), TimeToken(Some(Mon), 11, 30, 5))]]
  /** Open 09:00-18:00 at UTC+5. */
  const DAY_BANK := Slot(TimeToken(None, 9, 0, 5), TimeToken(None, 18, 0, 5))

  /** With a 90-minute activity, Monday's first hour is too short; the
      candidates are 11:30, 12:00, ..., 16:30 on Monday, then 09:00 on
      Tuesday. */
  lemma MondayCandidates()
    ensures var points := Candidates(MONDAY_SCHEDULE, 90, DAY_BANK);
      |points| > 11 &&
      points[..11] == seq(11, j => 690 + TRY_LATER_MINUTES * j) &&
      points[11] == 1980
  {
    MondayBusy();
    OneMeetingOnMonday(MONDAY_SCHEDULE, 90, DAY_BANK, Period(600, 690));
    MondayGaps();
  }

  /** Monday's timestamps: the bank opens at minute 540 and closes at 1080,
      the meeting is [600, 690). */
  lemma MondayBusy()
    ensures Open(DAY_BANK) == 540 && Close(DAY_BANK) == 1080
    ensures AllBusy(MONDAY_SCHEDULE, DAY_BANK) == [Period(600, 690)] + Nights(540, 1080)
  {
    assert UniteSchedule(MONDAY_SCHEDULE) == MONDAY_SCHEDULE[0] + UniteSchedule([]);
  }

  /** The first gap is shorter than 90 minutes; the second gives eleven
      starts, and Tuesday's opening comes next. */
  lemma MondayGaps()
    ensures var points := MeetingDayGaps(Period(600, 690), 540, 1080, 90);
      |points| > 11 &&
      points[..11] == seq(11, j => 690 + TRY_LATER_MINUTES * j) &&
      points[11] == 1980
  {
    var early := GapPoints(540, 600, 90);
    var monday := GapPoints(690, 1080, 90);
    var tuesday := GapPoints(1980, 2520, 90);
    var wednesday := GapPoints(3420, 3960, 90);
    assert early == [];
    assert monday == seq(11, j => 690 + TRY_LATER_MINUTES * j);
    assert |tuesday| > 0 && tuesday[0] == 1980;
    var points := early + monday + tuesday + wednesday;
    assert points == monday + (tuesday + wednesday);
  }

  /** The first candidate is minute 690, Monday 11:30. */
  lemma MondayFirstStart()
    ensures var points := Candidates(MONDAY_SCHEDULE, 90, DAY_BANK);
      |points| > 0 && points[0] == 690
  {
    MondayCandidates();
    HeadOfPrefix(Candidates(MONDAY_SCHEDULE, 90, DAY_BANK), seq(11, j => 690 + TRY_LATER_MINUTES * j));
  }

  lemma HeadOfPrefix(points: seq<int>, prefix: seq<int>)
    requires 0 < |prefix| <= |points| && points[..|prefix|] == prefix
    ensures points[0] == prefix[0]
  {
    assert points[0] == points[..|prefix|][0];
  }

  /** A fresh cursor over these candidates formats as Monday 11:30. */
  method MondayWalk() returns (time: Option<Clock>)
    ensures time == Some(Clock(0, 11, 30))
  {
    var moment := GetAppropriateMoment(MONDAY_SCHEDULE, 90, DAY_BANK);
    MondayFirstStart();
    GetTimeOfClock(0, 11, 30);
    time := moment.Format();
  }
}
