/**
 * The slice of Aeon's `DateTime` that the time-period algebra stands on: instant ordering,
 * the Unix timestamp, the before-epoch guard of `timestamp`, and the time-of-day setters.
 *
 * A `DateTime` is an absolute instant, counted in microseconds since 1970-01-01T00:00:00Z
 * (negative before it), together with the fixed UTC offset of the wall clock it is shown in.
 * Every comparison looks at the instant only, so two values that differ only in their offset
 * are `IsEqual` without being the same value.
 */
module DateTimes {
  import opened Wrappers

  const MicrosPerSecond: int := 1_000_000
  const MicrosPerDay: int := 86_400_000_000

  datatype DateTime = DateTime(instant: int, offsetSeconds: int)

  /** Aeon's `TimeUnit`: a signed length of time, in microseconds. */
  type TimeUnit = int

  /** `TimeUnit::positive($seconds, $microsecond)`. */
  function Positive(seconds: nat, microsecond: nat): TimeUnit
  {
    seconds * MicrosPerSecond + microsecond
  }

  /** `TimeUnit::negative($seconds, $microsecond)`: both parts carry the minus sign. */
  function Negative(seconds: nat, microsecond: nat): TimeUnit
  {
    -(seconds * MicrosPerSecond + microsecond)
  }

  /** Adds a fixed-length unit; the wall-clock offset is kept. */
  function Add(d: DateTime, u: TimeUnit): (r: DateTime)
    ensures r.instant - d.instant == u && r.offsetSeconds == d.offsetSeconds
  {
    DateTime(d.instant + u, d.offsetSeconds)
  }

  // ---------------------------------------------------------------------------------------------
  // Comparison family: PHP compares two DateTimeImmutable objects by their Unix seconds first
  // and by their microseconds second; on the instant that is plain integer order.

  /** `a`'s (seconds, microsecond) pair comes before `b`'s in lexicographic order. */
  predicate PartsPrecede(a: DateTime, b: DateTime)
  {
    UnixSeconds(a) < UnixSeconds(b) || (UnixSeconds(a) == UnixSeconds(b) && Microsecond(a) < Microsecond(b))
  }

  /** Comparing the instants is comparing the (seconds, microsecond) pairs. */
  lemma InstantOrderIsPartsOrder(a: DateTime, b: DateTime)
    ensures a.instant < b.instant <==> PartsPrecede(a, b)
    ensures a.instant == b.instant <==> UnixSeconds(a) == UnixSeconds(b) && Microsecond(a) == Microsecond(b)
  {
    assert a.instant == UnixSeconds(a) * MicrosPerSecond + Microsecond(a);
    assert b.instant == UnixSeconds(b) * MicrosPerSecond + Microsecond(b);
  }

  predicate IsEqual(a: DateTime, b: DateTime): (r: bool)
    ensures r <==> UnixSeconds(a) == UnixSeconds(b) && Microsecond(a) == Microsecond(b)
  {
    InstantOrderIsPartsOrder(a, b);
    a.instant == b.instant
  }

  predicate IsAfter(a: DateTime, b: DateTime): (r: bool)
    ensures r <==> PartsPrecede(b, a)
  {
    InstantOrderIsPartsOrder(b, a);
    a.instant > b.instant
  }

  predicate IsAfterOrEqual(a: DateTime, b: DateTime): (r: bool)
    ensures r <==> !PartsPrecede(a, b)
  {
    InstantOrderIsPartsOrder(a, b);
    a.instant >= b.instant
  }

  predicate IsBeforeOrEqual(a: DateTime, b: DateTime): (r: bool)
    ensures r <==> !PartsPrecede(b, a)
  {
    InstantOrderIsPartsOrder(b, a);
    a.instant <= b.instant
  }

  predicate IsBefore(a: DateTime, b: DateTime): (r: bool)
    ensures r <==> PartsPrecede(a, b)
  {
    InstantOrderIsPartsOrder(a, b);
    a.instant < b.instant
  }

  /** Exactly one of before, equal and after holds; the "or equal" forms are the disjunctions. */
  lemma ComparisonIsTrichotomous(a: DateTime, b: DateTime)
    ensures IsBefore(a, b) || IsEqual(a, b) || IsAfter(a, b)
    ensures !(IsBefore(a, b) && IsEqual(a, b))
    ensures !(IsBefore(a, b) && IsAfter(a, b))
    ensures !(IsEqual(a, b) && IsAfter(a, b))
    ensures IsBeforeOrEqual(a, b) <==> IsBefore(a, b) || IsEqual(a, b)
    ensures IsAfterOrEqual(a, b) <==> IsAfter(a, b) || IsEqual(a, b)
    ensures IsBefore(a, b) <==> IsAfter(b, a)
  {
  }

  /** The same instant seen on two wall clocks is equal without being the same value. */
  lemma EqualityIgnoresOffset()
    ensures IsEqual(DateTime(0, 0), DateTime(0, 3600))
    ensures DateTime(0, 0) != DateTime(0, 3600)
  {
  }

  // ---------------------------------------------------------------------------------------------
  // Wall-clock fields.

  /** The instant shifted onto the wall clock of the value's offset. */
  function Local(d: DateTime): int
  {
    d.instant + d.offsetSeconds * MicrosPerSecond
  }

  /** The wall-clock day, counted from 1970-01-01 (floor division, so pre-epoch days are negative). */
  function DayNumber(d: DateTime): int
  {
    Local(d) / MicrosPerDay
  }

  /** Microseconds since the wall-clock midnight. */
  function TimeOfDay(d: DateTime): (t: int)
    ensures 0 <= t < MicrosPerDay
  {
    Local(d) % MicrosPerDay
  }

  /** `Time::microsecond()`: the sub-second part; offsets are whole seconds, so the instant's. */
  function Microsecond(d: DateTime): (us: int)
    ensures 0 <= us < MicrosPerSecond
  {
    d.instant % MicrosPerSecond
  }

  /** `DateTimeImmutable::getTimestamp()`: whole seconds since the epoch, rounded down. */
  function UnixSeconds(d: DateTime): int
  {
    d.instant / MicrosPerSecond
  }

  /** A wall-clock time of day, as `new Time($hour, $minute, $second, $microsecond)` gives it. */
  function ClockTime(hour: int, minute: int, second: int, microsecond: int): (t: int)
    requires 0 <= hour < 24 && 0 <= minute < 60 && 0 <= second < 60 && 0 <= microsecond < MicrosPerSecond
    ensures 0 <= t < MicrosPerDay
  {
    ((hour * 60 + minute) * 60 + second) * MicrosPerSecond + microsecond
  }

  lemma DayStartDivision(day: int, t: int)
    requires 0 <= t < MicrosPerDay
    ensures (day * MicrosPerDay + t) / MicrosPerDay == day
    ensures (day * MicrosPerDay + t) % MicrosPerDay == t
  {
  }

  /** Keeps the day and the offset, and puts the clock at `t`. */
  function SetTime(d: DateTime, t: int): (r: DateTime)
    requires 0 <= t < MicrosPerDay
    ensures DayNumber(r) == DayNumber(d) && TimeOfDay(r) == t
    ensures r.offsetSeconds == d.offsetSeconds
  {
    DayStartDivision(DayNumber(d), t);
    DateTime(DayNumber(d) * MicrosPerDay + t - d.offsetSeconds * MicrosPerSecond, d.offsetSeconds)
  }

  function Midnight(d: DateTime): (r: DateTime)
    ensures DayNumber(r) == DayNumber(d) && r.offsetSeconds == d.offsetSeconds
    ensures TimeOfDay(r) == ClockTime(0, 0, 0, 0)
  {
    SetTime(d, ClockTime(0, 0, 0, 0))
  }

  function Noon(d: DateTime): (r: DateTime)
    ensures DayNumber(r) == DayNumber(d) && r.offsetSeconds == d.offsetSeconds
    ensures TimeOfDay(r) == ClockTime(12, 0, 0, 0)
  {
    SetTime(d, ClockTime(12, 0, 0, 0))
  }

  function EndOfDay(d: DateTime): (r: DateTime)
    ensures DayNumber(r) == DayNumber(d) && r.offsetSeconds == d.offsetSeconds
    ensures TimeOfDay(r) == ClockTime(23, 59, 59, 999_999)
  {
    SetTime(d, ClockTime(23, 59, 59, 999_999))
  }

  /** Midnight opens and the end of day closes the wall-clock day that contains `d`. */
  lemma DayBracketsDateTime(d: DateTime)
    ensures IsBeforeOrEqual(Midnight(d), d) && IsBefore(Midnight(d), Noon(d))
    ensures IsBefore(Noon(d), EndOfDay(d)) && IsBeforeOrEqual(d, EndOfDay(d))
    ensures EndOfDay(d).instant - Midnight(d).instant == MicrosPerDay - 1
  {
    var start := DayNumber(d) * MicrosPerDay;
    assert Local(d) == start + TimeOfDay(d);
    assert Local(Midnight(d)) == start + 0;
    assert Local(EndOfDay(d)) == start + MicrosPerDay - 1;
  }

  // ---------------------------------------------------------------------------------------------
  // Timestamps.

  /**
   * `timestampUNIX()` as written: the whole seconds with the sign, and the time's microsecond
   * field copied unchanged into either sign.
   */
  function TimestampUnixAsWritten(d: DateTime): (t: TimeUnit)
    ensures UnixSeconds(d) >= 0 ==> t == d.instant
    ensures UnixSeconds(d) < 0 ==> t == d.instant - 2 * Microsecond(d)
  {
    assert d.instant == UnixSeconds(d) * MicrosPerSecond + Microsecond(d);
    var seconds := UnixSeconds(d);
    if seconds >= 0 then Positive(seconds, Microsecond(d))
    else Negative(-seconds, Microsecond(d))
  }

  /**
   * The timestamp the method is meant to return: before the epoch, the microseconds past the
   * (rounded-down) second are borrowed from the magnitude instead of added to it.
   */
  function TimestampUnix(d: DateTime): (t: TimeUnit)
    ensures t == d.instant
    ensures t >= 0 <==> UnixSeconds(d) >= 0
  {
    var seconds := UnixSeconds(d);
    if seconds >= 0 then Positive(seconds, Microsecond(d))
    else if Microsecond(d) == 0 then Negative(-seconds, 0)
    else Negative(-seconds - 1, MicrosPerSecond - Microsecond(d))
  }

  /** The code as written is right exactly on and after the epoch and on whole seconds. */
  lemma TimestampUnixAsWrittenIsExactOnlySometimes(d: DateTime)
    ensures TimestampUnixAsWritten(d) == d.instant <==> d.instant >= 0 || Microsecond(d) == 0
  {
    var s, us := UnixSeconds(d), Microsecond(d);
    assert d.instant == s * MicrosPerSecond + us;
    if s < 0 {
      assert TimestampUnixAsWritten(d) == s * MicrosPerSecond - us;
    }
  }

  /** Half a second before the epoch reads as one and a half seconds before it. */
  lemma TimestampUnixAsWrittenBeforeEpoch()
    ensures UnixSeconds(DateTime(-500_000, 0)) == -1
    ensures Microsecond(DateTime(-500_000, 0)) == 500_000
    ensures TimestampUnixAsWritten(DateTime(-500_000, 0)) == -1_500_000
    ensures TimestampUnix(DateTime(-500_000, 0)) == -500_000
  {
  }

  datatype EpochKind = UNIX | UTC | GPS | TAI

  /** `TimeEpoch`: its kind and the date it starts at. */
  datatype TimeEpoch = TimeEpoch(kind: EpochKind, date: DateTime)

  /**
   * `timestamp($timeEpoch)`. The guard comes first: an instant before the epoch's start fails,
   * whatever the branch would compute. `leapCorrected` is the value the UTC, GPS and TAI branches
   * compute from the leap-second table, which is not part of this model.
   */
  function Timestamp(d: DateTime, epoch: TimeEpoch, leapCorrected: TimeUnit): (r: Result<TimeUnit>)
    ensures r.Err? <==> IsBefore(d, epoch.date)
    ensures r.Err? ==> r.error == EpochNotStarted
    ensures r.Ok? && epoch.kind == UNIX ==> r.value == d.instant
    ensures r.Ok? && epoch.kind != UNIX ==> r.value == leapCorrected
  {
    if IsBefore(d, epoch.date) then Err(EpochNotStarted)
    else match epoch.kind
      case UTC => Ok(leapCorrected)
      case GPS => Ok(leapCorrected)
      case TAI => Ok(leapCorrected)
      case UNIX => Ok(TimestampUnix(d))
  }

  /**
   * Through `timestamp` with the Unix epoch (which starts at instant 0) the guard keeps every
   * pre-epoch instant away, so there the code as written and the intended timestamp agree.
   */
  lemma UnixEpochTimestampMatchesAsWritten(d: DateTime, offsetSeconds: int, leapCorrected: TimeUnit)
    ensures var r := Timestamp(d, TimeEpoch(UNIX, DateTime(0, offsetSeconds)), leapCorrected);
      r.Ok? ==> r.value == TimestampUnixAsWritten(d)
  {
    TimestampUnixAsWrittenIsExactOnlySometimes(d);
  }
}
