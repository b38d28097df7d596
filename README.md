# robbery.js scheduling pipeline, in Dafny

This project models `getAppropriateMoment` from `robbery.js`. The function looks for start minutes for an activity of a fixed duration, given:

- a weekly busy schedule per participant;
- the bank's daily opening hours.

It works in these steps:

1. Every time token becomes a minute on a reference week (Monday 00:00 = 0), shifted into the bank's timezone.
2. Eight nightly closures of the bank are unrolled and appended.
3. The intervals are sorted by `from` and merged in a single pass into a cover whose entries are separated.
4. The cover is cut at the three-day horizon (minute 4320).
5. Every interior gap is scanned in 30-minute steps for starts that fit the duration.

The result is returned in a cursor object that has a counter, `exists`, `tryLater` and `format`.

An interval `{from, to}` is read as the half-open span `[from, to)`:

- a participant or the bank is busy at minute `x` when `from <= x < to`;
- a gap runs from one interval's `to` to the next one's `from`;
- two intervals are merged when they overlap or touch (`!(u.from > p.to || u.to < p.from)`).

All arithmetic is on unbounded integers. The source's minute values are small whole numbers, far inside JavaScript's safe-integer range. `Math.floor` of a division by a positive constant is Dafny's Euclidean `/`, which is how `getTime` is written.

Modules, one per file:

- `Wrappers` (wrappers.dfy): `Option`.
- `Periods` (periods.dfy): the constants, the interval type and the shared predicates. These are `Covers`, `SortedByFrom`, `Separated` (well formed, and `s[k].to < s[k+1].from`) and `StrictlyAscending`.
- `Timestamps` (timestamps.dfy): `getTimestamp`, `getTime`, schedule flattening, `mapTimeToTimePeriods`.
- `Closures` (closures.dfy): `addBankCloseTimePeriods`.
- `Merging` (merging.dfy): `periodsSorter`, the sort, `addPeriod`, `getUnitedTimePeriods`.
- `Horizon` (horizon.dfy): `removePeriodsAfterTimeOut`.
- `Gaps` (gaps.dfy): `getStartPoints` and its inner `tryFindStartPoint`.
- `Robbery` (robbery.dfy):
  - `getBusyPeriods`, `getAppropriateMoment` and the cursor, as a class `Cursor` with a mutable `counter`.
  - Module `Guarantees`: end-to-end properties.
  - Module `WeekStart`: the finding below.
- `Scenarios` (scenarios.dfy): one meeting inside Monday's hours, in general and for a concrete schedule.

Loops in the source stay loops in the model:

- `addBankCloseTimePeriods` (a `for`/`push` loop);
- `addPeriod` (a loop with `continue` and an `added` flag);
- `getUnitedTimePeriods`;
- `getStartPoints` and `tryFindStartPoint` (a `while` loop).

Each of these is a method proved against a specification function:

| method | specification function |
|---|---|
| `AddBankCloseTimePeriods` | `Nights` |
| `AddPeriod` | `Absorb` |
| `GetUnitedTimePeriods` | `United`, a left fold of `Absorb` |
| `GetStartPoints` | `StartPoints` |
| `TryFindStartPoint` | `GapPoints` |

The properties are then proved about these functions.

The JavaScript code mutates the local arrays `united` and `points` in place. The model's methods instead take and return sequence values, because no caller shares those arrays.

## Model

| member | source | states |
|---|---|---|
| `Timestamps.WeekDayNumber` | robbery.js:3 | the weekday tags are numbered 0 (Monday) to 6 (Sunday) |
| `Timestamps.WeekDayNumberInjective` | robbery.js:3 | different weekday tags get different numbers |
| `Timestamps.DayOffset` | robbery.js:29-30 | a token without a day tag is on day 0; the day is always below 7 |
| `Timestamps.GetTimestamp` | robbery.js:28-43 | the timestamp is `day*1440 + hours*60 + minutes` plus `(bankTimeZone - timezone)*60`; no shift applies when the timezones are equal |
| `Timestamps.GetTimestampSameInstant` | robbery.js:38-40 | two tokens naming the same instant in different timezones get the same timestamp |
| `Timestamps.GetTime` | robbery.js:164-172 | `t == day*1440 + hour*60 + minute` with `0 <= hour < 24` and `0 <= minute < 60`; the day is nonnegative exactly when `t` is |
| `Timestamps.GetTimeOfClock` | robbery.js:164-172 | the decomposition is unique: decomposing `day*1440 + hour*60 + minute` gives back that day, hour and minute |
| `Timestamps.TimestampRoundTrip` | robbery.js:28-43 | for a token in the bank's timezone, `getTime` of its timestamp gives back its own day, hours and minutes |
| `Timestamps.UniteSchedule` | robbery.js:15-17 | the flattened schedule holds exactly the entries of the participants' lists |
| `Timestamps.MapTimeToTimePeriods` | robbery.js:19-26 | one interval per entry, in order, whose ends are the timestamps of the entry's ends; an entry whose ends share a timezone keeps its length |
| `Closures.Nights` | robbery.js:47-54 | exactly 8 nights; night 0 is `[close-1440, open)`; every night lasts `1440-(close-open)` minutes |
| `Closures.NightsSpacing` | robbery.js:49-50 | consecutive nights are exactly 1440 minutes apart |
| `Closures.AddBankCloseTimePeriods` | robbery.js:45-57 | the result is the input unchanged, followed by the 8 nights of the bank's hours in the bank's timezone |
| `Closures.NightsSeparated` | robbery.js:45-57 | for hours with `open < close <= open+1440`, the nights list is sorted and separated |
| `Closures.NightsCoverClosedHours` | robbery.js:45-57 | between night 0's start and the last night's end, a minute is covered by a night exactly when its time of day is outside `[open, close)` |
| `Merging.PeriodsSorter` | robbery.js:59-68 | the comparator is negative, positive or zero exactly when `a.from` is less than, greater than or equal to `b.from` |
| `Merging.PeriodsSorterConsistent` | robbery.js:59-68 | the comparator is antisymmetric and transitive |
| `Merging.Insert` | robbery.js:74 | inserting into a sorted list gives a sorted list with one more copy of the entry |
| `Merging.SortByFrom` | robbery.js:74 | the sort's result is sorted by `from` and a permutation of its input |
| `Merging.SortByFromSorted` | robbery.js:74 | sorting a list that is already sorted by `from` leaves it unchanged |
| `Merging.SortIntoSecond` | robbery.js:74 | in a sorted list, an entry that starts after the head and no later than the second element is placed second |
| `Merging.PermutationCovers` | robbery.js:74 | reordering the busy list does not change which minutes are covered |
| `Merging.PermutationWellFormed` | robbery.js:74 | reordering keeps every interval's `from <= to` |
| `Merging.AddPeriod` | robbery.js:86-99 | an interval touching no entry is appended and nothing else changes; otherwise the length is kept, every touching entry grows to `min(from)`/`max(to)`, and every other entry is unchanged |
| `Merging.GetUnitedTimePeriods` | robbery.js:77-84 | the loop computes the left fold of `addPeriod`; on well formed input sorted by `from` the result is separated and covers exactly the input's minutes |
| `Merging.UnitedSeparated` | robbery.js:77-99 | on well formed input sorted by `from`, the merge is separated (so sorted, disjoint and not touching), non-empty for non-empty input, and starts no later than the last input |
| `Merging.UnitedCovers` | robbery.js:77-99 | on well formed input sorted by `from`, the merge covers exactly the minutes the input covers |
| `Merging.CoversSnoc` | robbery.js:97 | appending an interval adds exactly its minutes to the cover |
| `Merging.AbsorbSorted` | robbery.js:86-99 | one merge step on a separated list whose entries all start no later than the new interval keeps it separated and adds exactly the new minutes |
| `Merging.AbsorbIntoLast` | robbery.js:88-95 | when only the last entry touches, that entry is widened and the rest is unchanged |
| `Merging.UnitedOfSeparated` | robbery.js:77-99 | merging a separated list returns it unchanged (idempotence) |
| `Merging.UnsortedInputMayOverlap` | robbery.js:86-99 | without the sort, the merge of `[0,1)`, `[5,6)`, `[1,5)` is not separated |
| `Horizon.RemovePeriodsAfterTimeOut` | robbery.js:101-103 | the kept intervals all start before the timeout, and there are at most as many as in the input |
| `Horizon.RemoveMembership` | robbery.js:101-103 | an interval is kept exactly when it is in the input and starts before the timeout |
| `Horizon.RemoveConcat` | robbery.js:101-103 | the filter keeps input order: filtering a concatenation concatenates the filtered parts |
| `Horizon.RemoveSortedIsPrefix` | robbery.js:101-103 | on a list sorted by `from`, the kept intervals are a prefix, and every dropped one starts at or after the timeout |
| `Horizon.RemoveSortedCut` | robbery.js:101-103 | on a sorted list, the filter cuts exactly where `from` first reaches the timeout |
| `Horizon.RemoveAllLate` | robbery.js:101-103 | a list whose every interval starts at or after the timeout filters to nothing |
| `Horizon.RemoveKeepsSeparated` | robbery.js:101-103 | the filter keeps a separated list separated |
| `Gaps.GapPointsMembership` | robbery.js:107-115 | `c` is offered in the gap `[a, b)` exactly when `a <= c`, `c + duration <= b` and `c - a` is a multiple of 30 |
| `Gaps.GapPointsShape` | robbery.js:107-115 | a gap gives `floor((gap - duration)/30) + 1` points when `gap >= duration` and none otherwise; the first is `a` and consecutive ones are exactly 30 apart |
| `Gaps.TryFindStartPoint` | robbery.js:107-115 | the loop appends exactly the gap's points to the list built so far |
| `Gaps.GetStartPoints` | robbery.js:105-122 | the loop computes the gap points of each interior gap in order; a list with fewer than two intervals yields none |
| `Gaps.ScanGapsMembership` | robbery.js:117-119 | a point is produced by the first `n` gaps exactly when it fits one of them |
| `Gaps.StartPointsMembership` | robbery.js:105-122 | a start point is produced exactly when it fits between some `periods[i].to` and `periods[i+1].from`; the space before the first interval and after the last is never scanned |
| `Gaps.ScanGapsAscending` | robbery.js:117-119 | on a separated list with `duration > 0`, the points so far ascend strictly and stay below the next interval's start |
| `Gaps.StartPointsAscending` | robbery.js:105-122 | on a separated list with positive duration, the start points are strictly ascending |
| `Gaps.StartPointsFree` | robbery.js:105-122 | on a separated list, no minute of any activity that starts at a start point is covered by an interval |
| `Gaps.StartPointsBelow` | robbery.js:105-122 | when every interval starts below a bound, every activity ends before it; with nonnegative duration every start point is below it |
| `Robbery.GetBusyPeriods` | robbery.js:70-75 | the busy list is the entries followed by the nights, sorted by `from`, and a permutation of them |
| `Robbery.GetAppropriateMoment` | robbery.js:132-143 | a fresh valid cursor at counter 0 over the pipeline's start points |
| `Robbery.Cursor.constructor` | robbery.js:141-143 | the cursor holds the start points and starts at counter 0 |
| `Robbery.Cursor.Exists` | robbery.js:149-151 | `exists` is whether the counter is below the number of start points; on a valid cursor, that is whether any start was found |
| `Robbery.Cursor.TryLater` | robbery.js:194-202 | it moves and returns true exactly when `counter + 1` is below the number of start points; otherwise it returns false and changes nothing; the counter never decreases |
| `Robbery.Cursor.Format` | robbery.js:159-182 | no time when there are no start points; otherwise the day, hour and minute of the current start |
| `Guarantees.AllBusyWellFormed` | robbery.js:19-57 | with sane bank hours and entries, every busy interval has `from <= to` |
| `Guarantees.CandidatesAreFree` | robbery.js:132-139 | the start points are strictly ascending; every activity ends before minute 4320; no minute of it is busy for a participant or inside a night |
| `Guarantees.CandidatesWhileBankOpen` | robbery.js:132-139 | every minute of an activity from night 0's start on falls within the bank's daily opening hours |
| `WeekStart.StartBeforeMonday` | robbery.js:132-139 | as written: a participant at UTC+10 busy Monday 00:00-01:00 with a bank open 09:00-23:00 at UTC+3 and a 60-minute activity gives start point -360, which is day -1 |
| `WeekStart.FirstGapScanned` | robbery.js:117-119 | when the busy list is already separated, a point that fits the gap between its first two intervals is a start point |
| `WeekStart.EarlyBusySeparated` | robbery.js:19-57 | the busy list of that example is separated and begins `[-420,-360)`, `[-60,540)` |
| `WeekStart.DropBeforeWeekStart` | robbery.js:117-119 | keeps exactly the points from Monday 00:00 on, in order |
| `WeekStart.CorrectedCandidatesValid` | robbery.js:132-139 | corrected: every start is ascending, on day 0, 1 or 2, free, within the bank's hours and ends before the horizon |
| `WeekStart.CorrectionRemovesEarlyStart` | robbery.js:117-119 | the correction drops minute -360 from the example |
| `Scenarios.MeetingSorted` | robbery.js:74 | one meeting inside Monday's hours sorts to night 0, the meeting, then the other nights |
| `Scenarios.MeetingSeparated` | robbery.js:77-99 | that sorted list is separated |
| `Scenarios.MeetingKept` | robbery.js:101-103 | the horizon keeps its first five intervals |
| `Scenarios.MeetingCandidatesKept` | robbery.js:132-139 | the start points are those of the five kept intervals |
| `Scenarios.MeetingKeptGaps` | robbery.js:105-122 | the five kept intervals have four gaps: Monday before and after the meeting, and Tuesday's and Wednesday's opening hours |
| `Scenarios.OneMeetingOnMonday` | robbery.js:132-139 | with one meeting inside Monday's hours, the start points are those of the two free parts of Monday, then Tuesday's and Wednesday's opening hours |
| `Scenarios.MondayBusy` | robbery.js:19-57 | a bank open 09:00-18:00 at UTC+5 opens at minute 540 and closes at 1080; the meeting 10:00-11:30 at UTC+5 is `[600, 690)` |
| `Scenarios.MondayGaps` | robbery.js:105-122 | with 90 minutes, the hour before the meeting gives nothing, 11:30-16:30 gives eleven starts, and Tuesday 09:00 comes next |
| `Scenarios.MondayCandidates` | robbery.js:132-139 | the start points begin 690, 720, ..., 990 and then 1980 |
| `Scenarios.MondayFirstStart` | robbery.js:132-139 | the first start point is minute 690 |
| `Scenarios.MondayWalk` | robbery.js:159-172 | the cursor formats as Monday 11:30 |

## Left out

- Parsing the time strings is not modelled. This covers `defineBankTimeZone`'s regular expression and the `match` calls in `getTimestamp` (robbery.js:11-13, 29-34). The model starts from parsed tokens: an optional weekday, hours, minutes and a timezone. The bank's timezone is the timezone of its opening token.
  - The bank regex accepts a sign, while the time regex accepts only `+`. This asymmetry belongs to parsing and is not modelled.
- `Object.values` flattening of the schedule object is not modelled. The schedule is a sequence of the participants' sequences, and `UniteSchedule` concatenates them.
- The internals of `Array.prototype.sort` are not modelled. The stand-in is an insertion sort (`SortByFrom`), proved sorted and a permutation. Every merge and gap property only assumes the list is sorted by `from`, so they hold for any engine's order of equal keys. The one exception is `Scenarios`: its inputs have no equal keys.
- Template rendering is not modelled: the `%DD`/`%HH`/`%MM` substitution, the `WEEK_DAY_NUMBERS` lookup and `addZero` (robbery.js:174-186).
  - `Robbery.Cursor.Format`: returns the decomposed time as `Option<Clock>`, with `None` for the source's empty string. It says nothing about the rendered text.
- Object aliasing in `addPeriod` is not modelled: the pushed `period` object is the input's own object and is later widened through `united[i]` (robbery.js:92-97). Intervals are values here. The busy list is not used again after merging, so nothing observable in the pipeline depends on the aliasing.
- In-place mutation of the local arrays in `addPeriod`, `getUnitedTimePeriods` and `getStartPoints` is modelled as sequence values that the methods return.
- The `isStar` flag and the module export are not modelled (robbery.js:2, 206).
- The source's interval is half open in effect: gaps run from one `to` to the next `from`, and the activity may start exactly at a `to`. A natural-language reading of the interval as a closed span disagrees with this. The model follows the code.
- The merge is correct only on sorted input, which is the order the code uses. `Merging.UnsortedInputMayOverlap` shows that unsorted input can leave touching entries.

## Findings

| source | as written | input that shows it | evidently intended | confidence | as-written member | corrected member |
|---|---|---|---|---|---|---|
| robbery.js:117-119 | Night 0 starts one day before Monday (`close - 1440`). A participant entry ahead of the bank's timezone can be normalised to a negative minute. The gap between such an entry and night 0 is then scanned, so start points before Monday 00:00 are produced, and `format` looks up weekday `-1`. | one participant busy `ПН 00:00+10` to `ПН 01:00+10`, bank `09:00+3`-`23:00+3`, duration 60: the busy list begins `[-420,-360)`, `[-60,540)`, and `-360` (Sunday 18:00) is the first start point | only starts from Monday 00:00 on, which fall on Monday to Wednesday | medium; not executed | `WeekStart.StartBeforeMonday` | `WeekStart.CorrectedCandidatesValid` |
