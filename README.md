# Aeon calendar: time periods, modelled in Dafny

This project models the time-period algebra of the Aeon calendar library (PHP) and proves properties of it:

- **`TimePeriod`**: a directed pair of instants. The model covers its signed distance, direction, reversal, `abuts`, `overlaps`, `contains` and `merge`, plus the step of `iterate` / `iterateBackward` that turns generated dates into sub-periods.
- **`TimePeriods`**: an ordered collection with concatenation, `filter`, `first` / `last`, `sortBy` and the `gaps()` sweep.
- **`DateTime`**: only the slice the algebra stands on. That is instant comparison, `until` / `since` / `distance*`, the direction choice of `iterate`, the before-epoch guard of `timestamp`, `timestampUNIX`, and `midnight` / `noon` / `endOfDay`.
- **`WeekDay`**: a validated day number with its names.

A `DateTime` is an integer instant, in microseconds since 1970-01-01T00:00:00Z, plus the fixed UTC offset of its wall clock. A `TimeUnit` is a signed number of microseconds. Thrown exceptions and `null` results become `Result` and `Option` values (module `Wrappers`).

Modules:
- `DateTimes` (`datetimes.dfy`)
- `Periods` (`periods.dfy`): `TimePeriod`, plus the `DateTime` members that build periods.
- `PeriodSets` (`periodsets.dfy`): `TimePeriods`.
- `WeekDays` (`weekdays.dfy`)

`TimePeriod`, `DateTime` and `WeekDay` are immutable in the source, so they are datatypes with functions. `sortBy` sorts a local array in place, and is modelled as a method. It runs a stable insertion sort on a Dafny `array` and is proved equal to a functional insertion sort. That sort is proved ordered, a permutation of its input and stable. `gaps()` is a loop that updates an accumulator and appends to a list. It is a method whose loop invariant ties it to a recursive specification of the sweep.

## Model

| member | source | states |
|---|---|---|
| DateTimes.Add | src/Aeon/Calendar/Gregorian/TimePeriod.php:84 | adding a fixed-length unit moves the instant by exactly that unit and keeps the wall-clock offset |
| DateTimes.InstantOrderIsPartsOrder | src/Aeon/Calendar/Gregorian/DateTime.php:502-525 | comparing two instants is comparing their (Unix seconds, microsecond) pairs lexicographically, which is how PHP compares DateTimeImmutable values |
| DateTimes.IsEqual | src/Aeon/Calendar/Gregorian/DateTime.php:502-505 | true iff the two have the same Unix seconds and the same microsecond |
| DateTimes.IsAfter | src/Aeon/Calendar/Gregorian/DateTime.php:507-510 | true iff the other's (seconds, microsecond) pair precedes this one's |
| DateTimes.IsAfterOrEqual | src/Aeon/Calendar/Gregorian/DateTime.php:512-515 | true iff this (seconds, microsecond) pair does not precede the other's |
| DateTimes.IsBeforeOrEqual | src/Aeon/Calendar/Gregorian/DateTime.php:517-520 | true iff the other's (seconds, microsecond) pair does not precede this one's |
| DateTimes.IsBefore | src/Aeon/Calendar/Gregorian/DateTime.php:522-525 | true iff this (seconds, microsecond) pair precedes the other's |
| DateTimes.ComparisonIsTrichotomous | src/Aeon/Calendar/Gregorian/DateTime.php:502-525 | exactly one of isBefore, isEqual, isAfter holds; the "or equal" forms are the disjunctions; isBefore is isAfter swapped |
| DateTimes.EqualityIgnoresOffset | src/Aeon/Calendar/Gregorian/DateTime.php:502-505 | isEqual compares instants: the same instant on two wall clocks is equal without being the same value |
| DateTimes.Midnight | src/Aeon/Calendar/Gregorian/DateTime.php:452-460 | keeps the wall-clock day and the offset, clock at 00:00:00.000000 |
| DateTimes.Noon | src/Aeon/Calendar/Gregorian/DateTime.php:462-470 | keeps the wall-clock day and the offset, clock at 12:00:00.000000 |
| DateTimes.EndOfDay | src/Aeon/Calendar/Gregorian/DateTime.php:472-480 | keeps the wall-clock day and the offset, clock at 23:59:59.999999 |
| DateTimes.DayBracketsDateTime | src/Aeon/Calendar/Gregorian/DateTime.php:452-480 | midnight <= d <= endOfDay, midnight < noon < endOfDay, and endOfDay is one microsecond short of a day after midnight |
| DateTimes.TimestampUnix | src/Aeon/Calendar/Gregorian/DateTime.php:315-325 | the corrected Unix timestamp is the instant itself; it is non-negative exactly when the whole Unix seconds are |
| DateTimes.TimestampUnixAsWritten | src/Aeon/Calendar/Gregorian/DateTime.php:315-325 | as written: the instant itself when the whole Unix seconds are non-negative, and the instant less twice its microsecond field before the epoch |
| DateTimes.TimestampUnixAsWrittenIsExactOnlySometimes | src/Aeon/Calendar/Gregorian/DateTime.php:322-324 | the sign-and-microsecond formula as written equals the instant iff the instant is not before the epoch or has no sub-second part |
| DateTimes.TimestampUnixAsWrittenBeforeEpoch | src/Aeon/Calendar/Gregorian/DateTime.php:322-324 | half a second before the epoch (seconds -1, microsecond 500000) reads as -1.5 s as written, -0.5 s corrected |
| DateTimes.Timestamp | src/Aeon/Calendar/Gregorian/DateTime.php:284-309 | fails with the epoch exception iff the DateTime is strictly before the epoch's start, checked before any branch; the Unix branch gives the Unix timestamp |
| DateTimes.UnixEpochTimestampMatchesAsWritten | src/Aeon/Calendar/Gregorian/DateTime.php:284-307 | through timestamp with the Unix epoch the guard excludes every pre-epoch instant, so as-written and corrected agree there |
| Periods.Distance | src/Aeon/Calendar/Gregorian/TimePeriod.php:60-70 | the absolute timestamp difference, inverted when start is after end, is exactly end minus start |
| Periods.IsForward | src/Aeon/Calendar/Gregorian/TimePeriod.php:47-50 | forward iff the start is before the end |
| Periods.IsBackward | src/Aeon/Calendar/Gregorian/TimePeriod.php:52-55 | backward iff the start is after the end |
| Periods.ZeroLengthHasNoDirection | src/Aeon/Calendar/Gregorian/TimePeriod.php:47-70 | distance is zero iff the endpoints are equal, and then the period is neither forward nor backward |
| Periods.Revert | src/Aeon/Calendar/Gregorian/TimePeriod.php:165-168 | negates the distance, swaps forward and backward, keeps the covered instants |
| Periods.RevertTwiceIsIdentity | src/Aeon/Calendar/Gregorian/TimePeriod.php:165-168 | reverting twice gives back the period |
| Periods.Forward | src/Aeon/Calendar/Gregorian/TimePeriod.php:115-121 | the forward-turned period is never backward, is the period or its reversal, and runs from the lower to the higher endpoint |
| Periods.Abuts | src/Aeon/Calendar/Gregorian/TimePeriod.php:186-205 | after turning both forward, true iff one's end is the other's start |
| Periods.Overlaps | src/Aeon/Calendar/Gregorian/TimePeriod.php:113-158 | the comparison cascade equals its closed form: each forward-turned period starts strictly before the other ends |
| Periods.AbutsAndOverlapsIgnoreOrderAndDirection | src/Aeon/Calendar/Gregorian/TimePeriod.php:113-205 | both relations are symmetric and unchanged by reverting either period |
| Periods.AbuttingPeriodsDoNotOverlap | src/Aeon/Calendar/Gregorian/TimePeriod.php:128-130 | abutting periods never overlap |
| Periods.ZeroLengthDoesNotOverlapItself | src/Aeon/Calendar/Gregorian/TimePeriod.php:113-158 | two copies of a zero-length period abut and do not overlap |
| Periods.Contains | src/Aeon/Calendar/Gregorian/TimePeriod.php:160-163 | for periods that are not backward, true iff the other lies within this one; containing a forward period makes this one forward and overlapping it |
| Periods.ContainsIsPreorder | src/Aeon/Calendar/Gregorian/TimePeriod.php:160-163 | containment on raw endpoints is reflexive and transitive |
| Periods.ContainsOwnReversal | src/Aeon/Calendar/Gregorian/TimePeriod.php:160-163 | a period contains its own reversal iff it is not backward: raw endpoints make contains direction-sensitive |
| Periods.Span | src/Aeon/Calendar/Gregorian/TimePeriod.php:176-183 | the earlier raw start and later raw end: contains both inputs, each endpoint taken from an input |
| Periods.SpanIsLeastContainer | src/Aeon/Calendar/Gregorian/TimePeriod.php:176-183 | every period containing both inputs contains their span |
| Periods.SpanOfForwardPeriods | src/Aeon/Calendar/Gregorian/TimePeriod.php:176-183 | the span of two forward periods is forward, from the lower start to the higher end |
| Periods.Merge | src/Aeon/Calendar/Gregorian/TimePeriod.php:170-184 | fails with InvalidArgument iff the periods do not overlap; otherwise the span, which contains both |
| Periods.MergeRefusesAbuttingPeriods | src/Aeon/Calendar/Gregorian/TimePeriod.php:170-174 | merge fails on abutting periods, which the corrected coalesce joins |
| Periods.Coalesce | src/Aeon/Calendar/Gregorian/TimePeriods.php:93-94 | the join the gaps sweep needs: fails iff the periods neither overlap nor abut; otherwise the span |
| Periods.ExampleDaysThatAbut | src/Aeon/Calendar/Gregorian/TimePeriod.php:170-205 | 2020-01-01..05 and 2020-01-05..10 abut, do not overlap and cannot be merged |
| Periods.ExampleDaysThatOverlap | src/Aeon/Calendar/Gregorian/TimePeriod.php:113-184 | 2020-01-01..10 and 2020-01-05..08 overlap and merge to the outer period |
| Periods.Iterate | src/Aeon/Calendar/Gregorian/TimePeriod.php:77-92 | one sub-period per generated date d, from d, of length exactly the step |
| Periods.IterateBackward | src/Aeon/Calendar/Gregorian/TimePeriod.php:94-111 | the forward sub-periods read back to front, each reverted: ends at the dates in reverse generation order, length minus the step |
| Periods.SubPeriodDirections | src/Aeon/Calendar/Gregorian/TimePeriod.php:77-111 | with a positive step the sub-periods of iterate are forward and those of iterateBackward backward |
| Periods.Until | src/Aeon/Calendar/Gregorian/DateTime.php:527-530 | the period from a to b: its distance is b minus a |
| Periods.Since | src/Aeon/Calendar/Gregorian/DateTime.php:532-535 | the period from b to a: its distance is a minus b |
| Periods.SinceIsReversedUntil | src/Aeon/Calendar/Gregorian/DateTime.php:527-535 | a.since(b) is b.until(a) and the reversal of a.until(b) |
| Periods.DistanceTo | src/Aeon/Calendar/Gregorian/DateTime.php:537-540 | b minus a, positive iff a is before b |
| Periods.DistanceUntil | src/Aeon/Calendar/Gregorian/DateTime.php:547-550 | equals distance |
| Periods.DistanceSince | src/Aeon/Calendar/Gregorian/DateTime.php:542-545 | the negation of distanceUntil, and distanceUntil with the arguments swapped |
| Periods.PlanIteration | src/Aeon/Calendar/Gregorian/DateTime.php:552-557 | walks backward iff the target is strictly before; the walked period is never backward and has the two DateTimes as endpoints |
| Periods.IterateTo | src/Aeon/Calendar/Gregorian/DateTime.php:552-557 | one sub-period per generated date, each of length the step, negated when walking backward |
| PeriodSets.Add | src/Aeon/Calendar/Gregorian/TimePeriods.php:153-156 | the collection followed by the added periods, counts summed, nothing removed or joined |
| PeriodSets.Merge | src/Aeon/Calendar/Gregorian/TimePeriods.php:158-161 | the collection followed by the other one, counts summed, nothing removed or joined |
| PeriodSets.Count | src/Aeon/Calendar/Gregorian/TimePeriods.php:67-70 | the number of periods held, each duplicate counted |
| PeriodSets.Matching | src/Aeon/Calendar/Gregorian/TimePeriods.php:62-65 | keeps exactly the periods the callback accepts, no more than there were |
| PeriodSets.Filter | src/Aeon/Calendar/Gregorian/TimePeriods.php:62-65 | a period is in the result iff it is in the collection and accepted |
| PeriodSets.FilterDistributesOverMerge | src/Aeon/Calendar/Gregorian/TimePeriods.php:62-65 | filtering a concatenation concatenates the filtered parts, so relative order is kept |
| PeriodSets.FilterKeepingAllIsIdentity | src/Aeon/Calendar/Gregorian/TimePeriods.php:62-65 | a filter accepting every period returns the collection unchanged |
| PeriodSets.First | src/Aeon/Calendar/Gregorian/TimePeriods.php:131-140 | null iff the collection is empty, otherwise the first period |
| PeriodSets.Last | src/Aeon/Calendar/Gregorian/TimePeriods.php:142-151 | null iff the collection is empty, otherwise the last period |
| PeriodSets.FirstAndLastOfMerge | src/Aeon/Calendar/Gregorian/TimePeriods.php:131-161 | the first of a concatenation comes from its first non-empty part, the last from its last non-empty part |
| PeriodSets.SortedIsPermutation | src/Aeon/Calendar/Gregorian/TimePeriods.php:109-129 | the sort keeps every period exactly as often as it occurs |
| PeriodSets.SortedIsInOrder | src/Aeon/Calendar/Gregorian/TimePeriods.php:113-126 | the chosen endpoint ascends (or descends) along the sorted result |
| PeriodSets.SortedIsStable | src/Aeon/Calendar/Gregorian/TimePeriods.php:113-126 | periods with equal sort keys keep their relative order |
| PeriodSets.SortedKeepsOrderedInput | src/Aeon/Calendar/Gregorian/TimePeriods.php:109-129 | sorting a collection already in order changes nothing |
| PeriodSets.SortingIsIdempotent | src/Aeon/Calendar/Gregorian/TimePeriods.php:109-129 | sorting twice is sorting once |
| PeriodSets.InsertInPlace | src/Aeon/Calendar/Gregorian/TimePeriods.php:113-126 | one insertion step on the array: the prefix becomes the stable insertion of the next period, the rest is untouched |
| PeriodSets.SortInPlace | src/Aeon/Calendar/Gregorian/TimePeriods.php:113-126 | sorting the array in place leaves it holding the stable sort of its old contents |
| PeriodSets.SortBy | src/Aeon/Calendar/Gregorian/TimePeriods.php:109-129 | the in-place sort returns the stable sort: ordered by the chosen endpoint and direction, a permutation of the input |
| PeriodSets.Sort | src/Aeon/Calendar/Gregorian/TimePeriods.php:104-107 | ascending by start, a permutation of the input |
| PeriodSets.Forwards | src/Aeon/Calendar/Gregorian/TimePeriods.php:82-87 | each period turned forward, in place |
| PeriodSets.Sweep | src/Aeon/Calendar/Gregorian/TimePeriods.php:89-99 | the recursive sweep as written fails only with the InvalidArgument that merge throws |
| PeriodSets.GapsOf | src/Aeon/Calendar/Gregorian/TimePeriods.php:80-102 | gaps() as written fails only with the InvalidArgument that merge throws |
| PeriodSets.Gaps | src/Aeon/Calendar/Gregorian/TimePeriods.php:80-102 | the loop as written computes the recursive sweep specification, including its merge failure |
| PeriodSets.GapsOfFewPeriodsIsEmpty | src/Aeon/Calendar/Gregorian/TimePeriods.php:89-101 | an empty or one-period collection has no gaps |
| PeriodSets.SweepEmitsAtMostOneGapPerPeriod | src/Aeon/Calendar/Gregorian/TimePeriods.php:92-99 | the sweep emits at most one gap per period it visits |
| PeriodSets.GapsOfCount | src/Aeon/Calendar/Gregorian/TimePeriods.php:92-99 | there are at most count - 1 gaps |
| PeriodSets.SweepGapsAreForward | src/Aeon/Calendar/Gregorian/TimePeriods.php:93-97 | each emitted gap, from the accumulator's end to the next start, is strictly forward |
| PeriodSets.GapsOfAreForward | src/Aeon/Calendar/Gregorian/TimePeriods.php:82-99 | every gap gaps() emits is strictly forward, for any input directions |
| PeriodSets.SweepOverCoveredSpanInput | src/Aeon/Calendar/Gregorian/TimePeriods.php:89-99 | the sweep over (3,4), (5,6), (1,10) emits the gap (4,5) |
| PeriodSets.GapsOfFailsOnAbuttingPeriods | src/Aeon/Calendar/Gregorian/TimePeriods.php:93-94 | gaps() fails on two abutting periods, because the abuts branch calls merge |
| PeriodSets.GapsOfReportsCoveredSpan | src/Aeon/Calendar/Gregorian/TimePeriods.php:82-87 | sorting by raw start before turning forward reports (4,5) as a gap, which the period from 10 back to 1 covers |
| PeriodSets.CoalescingSweepIsSound | src/Aeon/Calendar/Gregorian/TimePeriods.php:89-99 | over forward periods sorted by start, the corrected sweep emits at most one gap per period, forward, ascending, after the accumulator, overlapping none of the periods |
| PeriodSets.CoalescedGapsAreUncovered | src/Aeon/Calendar/Gregorian/TimePeriods.php:80-102 | the corrected gaps: at most count - 1, forward, ascending, and none overlaps any period of the collection |
| PeriodSets.CoalescingSweepIsComplete | src/Aeon/Calendar/Gregorian/TimePeriods.php:89-99 | over forward periods sorted by start, an instant after the accumulator's end, before some later start and covered by no period, lies in an emitted gap |
| PeriodSets.CoalescingSweepGapsStartAtEnds | src/Aeon/Calendar/Gregorian/TimePeriods.php:93-97 | every emitted gap starts where the accumulator or a visited period ends |
| PeriodSets.CoalescingSweepGapsEndAtStarts | src/Aeon/Calendar/Gregorian/TimePeriods.php:93-97 | every emitted gap ends where a visited period starts |
| PeriodSets.CoalescedGapsAreComplete | src/Aeon/Calendar/Gregorian/TimePeriods.php:80-102 | every instant at or after some period's start, before another period's start and covered by no period lies in one of the corrected gaps |
| PeriodSets.CoalescedGapLiesBetweenPeriods | src/Aeon/Calendar/Gregorian/TimePeriods.php:80-102 | a corrected gap runs from the end of a period of the collection to the start of another |
| PeriodSets.CoalescedGapsLieBetweenPeriods | src/Aeon/Calendar/Gregorian/TimePeriods.php:80-102 | every corrected gap lies within the collection's span: from some period's end to some period's start |
| PeriodSets.CoalescedGapOverlapsNoPeriod | src/Aeon/Calendar/Gregorian/TimePeriods.php:80-102 | a corrected gap is forward and overlaps no period of the collection |
| PeriodSets.CoalescedGapsAreUncoveredTime | src/Aeon/Calendar/Gregorian/TimePeriods.php:80-102 | every instant inside a corrected gap lies between periods of the collection and is covered by none |
| PeriodSets.CoalescedGapsAreExactlyTheUncoveredTime | src/Aeon/Calendar/Gregorian/TimePeriods.php:80-102 | an instant is in a corrected gap iff it lies between periods of the collection and no period covers it |
| PeriodSets.SweepAgreesWhereItSucceeds | src/Aeon/Calendar/Gregorian/TimePeriods.php:89-99 | wherever the sweep as written does not throw, it emits exactly the corrected sweep's gaps |
| PeriodSets.ForwardsOfSortedEndAfterEarlierStarts | src/Aeon/Calendar/Gregorian/TimePeriods.php:82-87 | sorted by raw start and then turned forward, every period is not backward and ends no earlier than any earlier one starts |
| PeriodSets.GapsOfForwardPeriodsAreExact | src/Aeon/Calendar/Gregorian/TimePeriods.php:80-102 | on a collection with no backward period, gaps() as written, when it does not throw, returns the corrected gaps, hence exactly the uncovered time between the periods |
| PeriodSets.CoalescedGaps | src/Aeon/Calendar/Gregorian/TimePeriods.php:80-102 | the corrected loop never fails, computes the corrected sweep, returns at most count - 1 forward gaps overlapping no period, and an instant is in one of its gaps iff it lies between periods and no period covers it |
| PeriodSets.CoalescedGapsOfAbuttingPeriods | src/Aeon/Calendar/Gregorian/TimePeriods.php:93-94 | the corrected gaps of two abutting periods is empty |
| PeriodSets.CoalescedGapsOfCoveredSpan | src/Aeon/Calendar/Gregorian/TimePeriods.php:82-87 | the corrected gaps of (3,4), (5,6), (10,1) is empty |
| WeekDays.Create | src/Aeon/Calendar/Gregorian/Day/WeekDay.php:36-42 | succeeds iff 1 <= number <= 7, keeping the number; fails with InvalidArgument otherwise |
| WeekDays.Monday | src/Aeon/Calendar/Gregorian/Day/WeekDay.php:45-48 | the constructor applied to 1 succeeds with this day, whose name is Monday |
| WeekDays.Tuesday | src/Aeon/Calendar/Gregorian/Day/WeekDay.php:51-54 | the constructor applied to 2 succeeds with this day, whose name is Tuesday |
| WeekDays.Wednesday | src/Aeon/Calendar/Gregorian/Day/WeekDay.php:57-60 | the constructor applied to 3 succeeds with this day, whose name is Wednesday |
| WeekDays.Thursday | src/Aeon/Calendar/Gregorian/Day/WeekDay.php:63-66 | the constructor applied to 4 succeeds with this day, whose name is Thursday |
| WeekDays.Friday | src/Aeon/Calendar/Gregorian/Day/WeekDay.php:69-72 | the constructor applied to 5 succeeds with this day, whose name is Friday |
| WeekDays.Saturday | src/Aeon/Calendar/Gregorian/Day/WeekDay.php:75-78 | the constructor applied to 6 succeeds with this day, whose name is Saturday |
| WeekDays.Sunday | src/Aeon/Calendar/Gregorian/Day/WeekDay.php:81-84 | the constructor applied to 7 succeeds with this day, whose name is Sunday |
| WeekDays.FactoriesFollowTheWeek | src/Aeon/Calendar/Gregorian/Day/WeekDay.php:45-84 | monday() through sunday() give the numbers 1 to 7 in order and name every week day |
| WeekDays.NameTablesCoverTheWeek | src/Aeon/Calendar/Gregorian/Day/WeekDay.php:16-34 | both lookup tables are keyed by exactly 1 to 7, so name and shortName are defined for every valid day |
| WeekDays.Name | src/Aeon/Calendar/Gregorian/Day/WeekDay.php:91-94 | a name of at least six letters ending in "day" |
| WeekDays.ShortName | src/Aeon/Calendar/Gregorian/Day/WeekDay.php:96-99 | a three-letter abbreviation |
| WeekDays.ShortNameAbbreviatesName | src/Aeon/Calendar/Gregorian/Day/WeekDay.php:16-34 | the short name is the first three letters of the name |
| WeekDays.ShortNameOf | src/Aeon/Calendar/Gregorian/Day/WeekDay.php:26-34 | the short name is Mon for 1 through Sun for 7, and determines the number |
| WeekDays.NamesTellDaysApart | src/Aeon/Calendar/Gregorian/Day/WeekDay.php:16-34 | two days share a name, or a short name, iff they are the same day |
| WeekDays.IsWeekend | src/Aeon/Calendar/Gregorian/Day/WeekDay.php:106-109 | true iff the day is Saturday or Sunday, the days after Friday |
| WeekDays.Equals | src/Aeon/Calendar/Gregorian/Day/WeekDay.php:101-104 | true iff the two are the same day, iff their names agree |
| WeekDays.EqualsIsAnEquivalence | src/Aeon/Calendar/Gregorian/Day/WeekDay.php:101-104 | equals is reflexive, symmetric and transitive |

## Left out

- Periods.Distance: computed from the corrected Unix timestamp (see Findings), not the as-written one. For a pre-epoch endpoint with a sub-second part, the model's distance is the exact difference, which the code as written does not give.
- Periods.IsForward, Periods.IsBackward: `TimeUnit::isPositive` / `isNegative` are taken as strict sign tests; `TimeUnit` is not part of this model.
- Calendar arithmetic through `DateTimeImmutable::modify`/`add`/`sub`, and `yesterday`/`tomorrow`: they wrap a platform library. `DateTime::add` passes any `Unit` on to `DateTimeImmutable::add`, so a step may be a calendar interval of varying length such as a month; only the addition of a fixed-length `TimeUnit` is modelled (`DateTimes.Add`).
- Time zones: a DateTime has a fixed UTC offset. Named zones, daylight saving, `isDaylightSaving`, `isAmbiguous` and zone conversion depend on the host time-zone database.
- `fromString`, `fromTimestampUnix`, formatting and ISO strings, `quarter()` (floating-point `ceil`): parsing, output and floating point.
- DateTimes.Timestamp: the UTC, GPS and TAI branch arithmetic, `toAtomicTime`, `toGPSTime` and `TimePeriod::leapSeconds` depend on the leap-second table. The value those branches compute is a parameter; only the before-epoch guard and the Unix branch are modelled.
- Periods.Iterate, Periods.IterateBackward, Periods.IterateTo: the dates `Interval::toDatePeriod` / `toDatePeriodBackward` generate are an input, and only their mapping to sub-periods is modelled. The step is a fixed-length `TimeUnit`; a variable-length `Unit` step, such as a month added through `DateTime::add` (src/Aeon/Calendar/Gregorian/DateTime.php:492-495), is not modelled, so the length of each sub-period is stated for fixed-length steps only.
- The lazy caches of `toDateTimeImmutable` and `timestampUNIX`: memoisation only, they do not change any result.
- `TimePeriods::each`, `map`, `getIterator`, `all`: callback and iterator plumbing over the same sequence. `count` is the sequence length (`PeriodSets.Count`).
- PeriodSets.SortBy: `uasort` is modelled as a stable insertion sort, since the sort of PHP 8 is stable. The comparator's `<=>` on `DateTimeImmutable` values is the comparison of instants.
- `Days.php`, `Holiday.php` and the benchmark are not part of this model.
- The number of a `WeekDay` is the datatype's field, so `number()` has no member of its own.

## Findings

| source | as written | input that shows it | evidently intended | confidence | as-written member | corrected member |
|---|---|---|---|---|---|---|
| src/Aeon/Calendar/Gregorian/TimePeriods.php:93-94 | the sweep takes the merge branch when the accumulator overlaps or abuts the next period, but `merge` throws unless they overlap, so abutting periods make `gaps()` throw | the periods (0 µs, 10 µs) and (10 µs, 20 µs) | abutting periods are joined like overlapping ones and `gaps()` returns no gap | high, not executed | PeriodSets.GapsOfFailsOnAbuttingPeriods | PeriodSets.CoalescedGaps |
| src/Aeon/Calendar/Gregorian/TimePeriods.php:82-87 | periods are sorted by raw start and only then turned forward, so a backward period is visited after periods it covers, and covered time is reported as a gap | the periods (3,4), (5,6) and (10,1), in µs: the gap (4,5) lies inside (1,10) | turn every period forward before sorting, so that no gap overlaps any period | medium, not executed | PeriodSets.GapsOfReportsCoveredSpan | PeriodSets.CoalescedGapsAreExactlyTheUncoveredTime |
| src/Aeon/Calendar/Gregorian/DateTime.php:322-324 | before the epoch, `TimeUnit::negative(abs($seconds), $microsecond)` adds the microseconds to the magnitude, but `getTimestamp()` has rounded the seconds down, so the microseconds should be subtracted from it | the instant -500000 µs: seconds -1, microsecond 500000, read as -1.5 s | -0.5 s, the instant itself | medium, not executed (`TimeUnit::negative` is not part of this model) | DateTimes.TimestampUnixAsWrittenBeforeEpoch | DateTimes.TimestampUnix |
