/**
 * The whole pipeline of getAppropriateMoment and the cursor it returns.
 */
module Robbery {
  import opened Wrappers
  import opened Periods
  import opened Timestamps
  import opened Closures
  import opened Merging
  import opened Horizon
  import opened Gaps

  /** `defineBankTimeZone`: the timezone written on the opening time. */
  function BankTimeZone(workingHours: Slot): int {
    workingHours.from.timezone
  }

  /** Every busy interval before sorting: the participants' entries followed
      by the bank's nights. */
  ghost function AllBusy(schedule: seq<seq<Slot>>, workingHours: Slot): seq<Period> {
    var tz := BankTimeZone(workingHours);
    MapTimeToTimePeriods(UniteSchedule(schedule), tz) +
      Nights(GetTimestamp(workingHours.from, tz), GetTimestamp(workingHours.to, tz))
  }

  /** The start points getAppropriateMoment computes. */
  ghost function Candidates(schedule: seq<seq<Slot>>, duration: int, workingHours: Slot): seq<int> {
    var busy := SortByFrom(AllBusy(schedule, workingHours));
    StartPoints(RemovePeriodsAfterTimeOut(United(busy), TIMEOUT_TIME), duration)
  }

  /** `getBusyPeriods`: a sorted permutation of the entries and the nights. */
  method GetBusyPeriods(unitedSchedule: seq<Slot>, workingHours: Slot, bankTimeZone: int)
    returns (busy: seq<Period>)
    ensures SortedByFrom(busy)
    ensures multiset(busy) == multiset(MapTimeToTimePeriods(unitedSchedule, bankTimeZone) +
      Nights(GetTimestamp(workingHours.from, bankTimeZone), GetTimestamp(workingHours.to, bankTimeZone)))
    ensures busy == SortByFrom(MapTimeToTimePeriods(unitedSchedule, bankTimeZone) +
      Nights(GetTimestamp(workingHours.from, bankTimeZone), GetTimestamp(workingHours.to, bankTimeZone)))
  {
    var periods := MapTimeToTimePeriods(unitedSchedule, bankTimeZone);
    var updatedPeriods := AddBankCloseTimePeriods(periods, workingHours, bankTimeZone);
    assert updatedPeriods == updatedPeriods[..|periods|] + updatedPeriods[|periods|..];
    busy := SortByFrom(updatedPeriods);
  }

  /** `getAppropriateMoment`: the cursor over the candidates, at its first one. */
  method GetAppropriateMoment(schedule: seq<seq<Slot>>, duration: int, workingHours: Slot)
    returns (moment: Cursor)
    ensures fresh(moment) && moment.Valid() && moment.counter == 0
    ensures moment.startPoints == Candidates(schedule, duration, workingHours)
  {
    var bankTimeZone := BankTimeZone(workingHours);
    var unitedSchedule := UniteSchedule(schedule);
    var busyTimePeriods := GetBusyPeriods(unitedSchedule, workingHours, bankTimeZone);
    var unitedBusyTimePeriods := GetUnitedTimePeriods(busyTimePeriods);
    var timePeriodsBeforeTimeOut := RemovePeriodsAfterTimeOut(unitedBusyTimePeriods, TIMEOUT_TIME);
    var startPoints := GetStartPoints(timePeriodsBeforeTimeOut, duration);
    moment := new Cursor(startPoints);
  }

  /** The object getAppropriateMoment returns: the start points and the index
      of the current one. */
  class Cursor {
    var counter: nat
    const startPoints: seq<int>

    /** The counter points at a start whenever there is one. */
    ghost predicate Valid()
      reads this
    {
      startPoints == [] || counter < |startPoints|
    }

    constructor (startPoints: seq<int>)
      ensures this.startPoints == startPoints && counter == 0 && Valid()
    {
      this.startPoints := startPoints;
      counter := 0;
    }

    /** `exists`: whether the counter points at a start; on a valid cursor
      that is whether any start was found. */
    function Exists(): (found: bool)
      reads this
      ensures found <==> counter < |startPoints|
      ensures Valid() ==> (found <==> startPoints != [])
    {
      counter < |startPoints|
    }

    /** `tryLater`: moves to the next start when there is one, and otherwise
      reports failure and changes nothing. */
    method TryLater() returns (moved: bool)
      requires Valid()
      modifies this
      ensures Valid()
      ensures moved <==> old(counter) + 1 < |startPoints|
      ensures counter == if moved then old(counter) + 1 else old(counter)
      ensures counter >= old(counter)
    {
      if counter + 1 < |startPoints| {
        counter := counter + 1;
        return true;
      }
      return false;
    }

    /** `format` up to the template: nothing when no start was found,
      otherwise the day, hour and minute of the current start. */
    function Format(): (time: Option<Clock>)
      reads this
      requires Valid()
      ensures time == None <==> startPoints == []
      ensures time.Some? ==>
        startPoints[counter] == time.value.day * MINUTES_IN_DAY + time.value.hour * MINUTES_IN_HOUR + time.value.minute &&
        0 <= time.value.hour < 24 && 0 <= time.value.minute < MINUTES_IN_HOUR
    {
      if |startPoints| == 0 then None
      else Some(GetTime(startPoints[counter]))
    }
  }

  /** A client of the cursor: two starts are visited in order, then every
      further tryLater fails and the second start stays current. */
  method WalkTwoStarts(first: int, second: int)
  {
    var moment := new Cursor([first, second]);
    assert moment.Exists();
    var moved := moment.TryLater();
    assert moved && moment.counter == 1;
    moved := moment.TryLater();
    assert !moved && moment.counter == 1;
    moved := moment.TryLater();
    assert !moved && moment.Exists();
    assert moment.Format() == Some(GetTime(second));
  }
}

/**
 * What the pipeline guarantees, from the properties of its stages.
 */
module Guarantees {
  import opened Wrappers
  import opened Periods
  import opened Timestamps
  import opened Closures
  import opened Merging
  import opened Horizon
  import opened Gaps
  import opened Robbery

  function Open(workingHours: Slot): int {
    GetTimestamp(workingHours.from, BankTimeZone(workingHours))
  }

  function Close(workingHours: Slot): int {
    GetTimestamp(workingHours.to, BankTimeZone(workingHours))
  }

  /** The bank's daily hours say it is open at minute x. */
  predicate BankOpenAt(workingHours: Slot, x: int) {
    Open(workingHours) <= x % MINUTES_IN_DAY < Close(workingHours)
  }

  /** Inputs as the parser promises them: every entry ends no earlier than it
      starts, and the bank opens and closes on the same day of its own clock. */
  predicate SaneInput(schedule: seq<seq<Slot>>, workingHours: Slot) {
    WellFormed(MapTimeToTimePeriods(UniteSchedule(schedule), BankTimeZone(workingHours))) &&
    0 <= Open(workingHours) <= Close(workingHours) < MINUTES_IN_DAY
  }

  lemma AllBusyWellFormed(schedule: seq<seq<Slot>>, workingHours: Slot)
    requires SaneInput(schedule, workingHours)
    ensures WellFormed(AllBusy(schedule, workingHours))
  {
  }

  /** The candidates are strictly ascending, each activity ends before the
      three-day horizon, and no minute of it is busy for anybody or inside a
      night of the bank. */
  lemma CandidatesAreFree(schedule: seq<seq<Slot>>, duration: int, workingHours: Slot)
    requires SaneInput(schedule, workingHours) && duration > 0
    ensures StrictlyAscending(Candidates(schedule, duration, workingHours))
    ensures forall c :: c in Candidates(schedule, duration, workingHours) ==> c + duration < TIMEOUT_TIME
    ensures forall c, x :: c in Candidates(schedule, duration, workingHours) && c <= x < c + duration ==>
      !Covers(AllBusy(schedule, workingHours), x)
  {
    var all := AllBusy(schedule, workingHours);
    AllBusyWellFormed(schedule, workingHours);
    var busy := SortByFrom(all);
    PermutationWellFormed(all, busy);
    UnitedSeparated(busy);
    UnitedCovers(busy);
    var united := United(busy);
    SeparatedPairwise(united);
    var kept := RemovePeriodsAfterTimeOut(united, TIMEOUT_TIME);
    RemoveSortedIsPrefix(united, TIMEOUT_TIME);
    RemoveKeepsSeparated(united, TIMEOUT_TIME);
    var points := Candidates(schedule, duration, workingHours);
    assert points == StartPoints(kept, duration);
    StartPointsAscending(kept, duration);
    StartPointsBelow(kept, duration, TIMEOUT_TIME);
    StartPointsFree(kept, duration);
    forall c, x | c in points && c <= x < c + duration
      ensures !Covers(all, x)
    {
      assert !Covers(kept, x);
      assert x < TIMEOUT_TIME;
      forall k | 0 <= k < |united|
        ensures !Contains(united[k], x)
      {
        if k < |kept| {
          assert united[k] == kept[k];
        }
      }
      PermutationCovers(all, busy, x);
    }
  }

  /** Every minute of a candidate activity from Sunday's closing time on
      falls inside the bank's opening hours. */
  lemma CandidatesWhileBankOpen(schedule: seq<seq<Slot>>, duration: int, workingHours: Slot)
    requires SaneInput(schedule, workingHours) && duration > 0
    ensures forall c, x :: c in Candidates(schedule, duration, workingHours) && c <= x < c + duration ==>
      x >= Close(workingHours) - MINUTES_IN_DAY ==> BankOpenAt(workingHours, x)
  {
    CandidatesAreFree(schedule, duration, workingHours);
    var people := MapTimeToTimePeriods(UniteSchedule(schedule), BankTimeZone(workingHours));
    var nights := Nights(Open(workingHours), Close(workingHours));
    forall c, x | c in Candidates(schedule, duration, workingHours) && c <= x < c + duration &&
      x >= Close(workingHours) - MINUTES_IN_DAY
      ensures BankOpenAt(workingHours, x)
    {
      CoversConcat(people, nights, x);
      NightsCoverClosedHours(Open(workingHours), Close(workingHours), x);
    }
  }
}

/**
 * Start points before Monday 00:00. A participant whose timezone is ahead of
 * the bank's gets negative timestamps; the first night only begins at
 * closing time on the day before Monday, so a gap before it can be scanned.
 * Such a start lies outside Monday to Wednesday, and its day index is -1.
 */
module WeekStart {
  import opened Wrappers
  import opened Periods
  import opened Timestamps
  import opened Closures
  import opened Merging
  import opened Horizon
  import opened Gaps
  import opened Robbery
  import opened Guarantees

  /** Busy 00:00-01:00 on Monday at UTC+10. */
  const EARLY_SCHEDULE := [[Slot(TimeToken(Some(Mon), 0, 0, 10), TimeToken(Some(Mon), 1, 0, 10))]]
  /** Open 09:00-23:00 at UTC+3. */
  const LATE_BANK := Slot(TimeToken(None, 9, 0, 3), TimeToken(None, 23, 0, 3))

  /** As written: a one-hour activity may start at 18:00 on the Sunday
      before the week, a minute whose day index is -1. */
  lemma StartBeforeMonday()
    ensures -360 in Candidates(EARLY_SCHEDULE, 60, LATE_BANK)
    ensures GetTime(-360).day == -1
  {
    EarlyBusySeparated();
    var all := AllBusy(EARLY_SCHEDULE, LATE_BANK);
    assert all[0] == Period(-420, -360) && all[1] == Period(-60, 540) by {
      assert all[..2][0] == all[0] && all[..2][1] == all[1];
    }
    FirstGapScanned(EARLY_SCHEDULE, 60, LATE_BANK, -360);
  }

  /** When the busy intervals happen to be separated already, the gap between
      the first two is scanned like any other. */
  lemma FirstGapScanned(schedule: seq<seq<Slot>>, duration: int, workingHours: Slot, c: int)
    requires Separated(AllBusy(schedule, workingHours)) && |AllBusy(schedule, workingHours)| >= 2
    requires AllBusy(schedule, workingHours)[1].from < TIMEOUT_TIME
    requires FitsInGap(AllBusy(schedule, workingHours), 0, duration, c)
    ensures c in Candidates(schedule, duration, workingHours)
  {
    var all := AllBusy(schedule, workingHours);
    SeparatedPairwise(all);
    assert United(SortByFrom(all)) == all by {
      SortByFromSorted(all);
      UnitedOfSeparated(all);
    }
    var kept := RemovePeriodsAfterTimeOut(all, TIMEOUT_TIME);
    assert Candidates(schedule, duration, workingHours) == StartPoints(kept, duration);
    assert |kept| >= 2 && kept[0] == all[0] && kept[1] == all[1] by {
      RemoveSortedIsPrefix(all, TIMEOUT_TIME);
      assert !(|kept| <= 1);
    }
    assert FitsInGap(kept, 0, duration, c);
    StartPointsMembership(kept, duration, c);
  }

  lemma EarlyBusySeparated()
    ensures Separated(AllBusy(EARLY_SCHEDULE, LATE_BANK))
    ensures AllBusy(EARLY_SCHEDULE, LATE_BANK)[..2] == [Period(-420, -360), Period(-60, 540)]
  {
    var people := MapTimeToTimePeriods(UniteSchedule(EARLY_SCHEDULE), 3);
    assert people == [Period(-420, -360)] by {
      assert UniteSchedule(EARLY_SCHEDULE) == EARLY_SCHEDULE[0] + UniteSchedule([]);
    }
    var nights := Nights(540, 1380);
    NightsSeparated(540, 1380);
    var all := AllBusy(EARLY_SCHEDULE, LATE_BANK);
    assert all == people + nights;
    assert nights[0] == Period(-60, 540);
    assert forall k :: 1 <= k < |all| ==> all[k] == nights[k - 1];
  }

  /** Keeps the start points from Monday 00:00 on, in order. */
  function DropBeforeWeekStart(points: seq<int>): (r: seq<int>)
    ensures forall c :: c in r <==> c in points && c >= 0
    ensures StrictlyAscending(points) ==> StrictlyAscending(r)
  {
    if points == [] then []
    else
      var rest := DropBeforeWeekStart(points[1..]);
      var head := if points[0] >= 0 then [points[0]] else [];
      assert StrictlyAscending(points) ==> StrictlyAscending(head + rest) by {
        if StrictlyAscending(points) {
          assert StrictlyAscending(points[1..]);
          forall j | 0 <= j < |rest|
            ensures points[0] < rest[j]
          {
            assert rest[j] in rest;
          }
          AscendingConcat(head, rest);
        }
      }
      head + rest
  }

  /** The candidates the pipeline is meant to offer: those in the week. */
  ghost function CorrectedCandidates(schedule: seq<seq<Slot>>, duration: int, workingHours: Slot): seq<int> {
    DropBeforeWeekStart(Candidates(schedule, duration, workingHours))
  }

  /** Corrected: every start is on Monday, Tuesday or Wednesday, the
      candidates ascend, and the bank is open and nobody busy for the whole
      activity. */
  lemma CorrectedCandidatesValid(schedule: seq<seq<Slot>>, duration: int, workingHours: Slot)
    requires SaneInput(schedule, workingHours) && duration > 0
    ensures StrictlyAscending(CorrectedCandidates(schedule, duration, workingHours))
    ensures forall c :: c in CorrectedCandidates(schedule, duration, workingHours) ==>
      0 <= c && c + duration < TIMEOUT_TIME && 0 <= GetTime(c).day < 3
    ensures forall c, x :: c in CorrectedCandidates(schedule, duration, workingHours) && c <= x < c + duration ==>
      !Covers(AllBusy(schedule, workingHours), x) && BankOpenAt(workingHours, x)
  {
    CandidatesAreFree(schedule, duration, workingHours);
    CandidatesWhileBankOpen(schedule, duration, workingHours);
    forall c | c in CorrectedCandidates(schedule, duration, workingHours)
      ensures 0 <= GetTime(c).day < 3
    {
      var t := GetTime(c);
      assert t.day * MINUTES_IN_DAY <= c < TIMEOUT_TIME;
    }
  }

  /** The corrected list has no start before the week while the as-written
      one does. */
  lemma CorrectionRemovesEarlyStart()
    ensures -360 in Candidates(EARLY_SCHEDULE, 60, LATE_BANK)
    ensures -360 !in CorrectedCandidates(EARLY_SCHEDULE, 60, LATE_BANK)
  {
    StartBeforeMonday();
  }
}
