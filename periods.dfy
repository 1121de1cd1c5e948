/**
 * Aeon's `TimePeriod`: a directed pair (start, end) of DateTimes. A period may run backward
 * (start after end); `overlaps` and `abuts` first turn both periods forward, while `contains`
 * and `merge` compare the raw endpoints.
 *
 * The DateTime members that build periods (`until`, `since`, `distance*`, `iterate`) are here
 * too, because they return a `TimePeriod`.
 */
module Periods {
  import opened Wrappers
  import opened DateTimes

  datatype TimePeriod = TimePeriod(start: DateTime, end: DateTime)

  /** The earlier of the two endpoint instants, whatever the direction. */
  function Lo(p: TimePeriod): int
  {
    if p.start.instant <= p.end.instant then p.start.instant else p.end.instant
  }

  /** The later of the two endpoint instants, whatever the direction. */
  function Hi(p: TimePeriod): int
  {
    if p.start.instant <= p.end.instant then p.end.instant else p.start.instant
  }

  /**
   * `distance()`: the absolute difference of the two Unix timestamps, inverted when the start
   * is after the end. It is the signed time from start to end.
   */
  function Distance(p: TimePeriod): (d: TimeUnit)
    ensures d == p.end.instant - p.start.instant
  {
    var diff := TimestampUnix(p.end) - TimestampUnix(p.start);
    var magnitude := if diff < 0 then -diff else diff;
    if IsAfter(p.start, p.end) then -magnitude else magnitude
  }

  function IsForward(p: TimePeriod): (r: bool)
    ensures r <==> IsBefore(p.start, p.end)
  {
    Distance(p) > 0
  }

  function IsBackward(p: TimePeriod): (r: bool)
    ensures r <==> IsAfter(p.start, p.end)
  {
    Distance(p) < 0
  }

  /** A period whose endpoints are the same instant is neither forward nor backward. */
  lemma ZeroLengthHasNoDirection(p: TimePeriod)
    ensures Distance(p) == 0 <==> IsEqual(p.start, p.end)
    ensures IsEqual(p.start, p.end) <==> !IsForward(p) && !IsBackward(p)
  {
  }

  function Revert(p: TimePeriod): (r: TimePeriod)
    ensures Distance(r) == -Distance(p)
    ensures IsBackward(r) <==> IsForward(p)
    ensures IsForward(r) <==> IsBackward(p)
    ensures Lo(r) == Lo(p) && Hi(r) == Hi(p)
  {
    TimePeriod(p.end, p.start)
  }

  lemma RevertTwiceIsIdentity(p: TimePeriod)
    ensures Revert(Revert(p)) == p
  {
  }

  /** The `isBackward() ? revert() : this` step of `overlaps`, `abuts` and `gaps`. */
  function Forward(p: TimePeriod): (r: TimePeriod)
    ensures !IsBackward(r)
    ensures r == p || r == Revert(p)
    ensures r.start.instant == Lo(p) && r.end.instant == Hi(p)
  {
    if IsBackward(p) then Revert(p) else p
  }

  /**
   * `abuts()`: after turning both periods forward, one ends exactly where the other starts.
   */
  function Abuts(p: TimePeriod, q: TimePeriod): (r: bool)
    ensures r <==> Hi(p) == Lo(q) || Hi(q) == Lo(p)
  {
    var pf := Forward(p);
    var qf := Forward(q);
    if IsEqual(pf.end, qf.start) then true
    else if IsEqual(pf.start, qf.end) then true
    else false
  }

  /**
   * `overlaps()`: the cascade of comparisons over the forward-turned periods. Its closed form:
   * each period starts strictly before the other one ends.
   */
  function Overlaps(p: TimePeriod, q: TimePeriod): (r: bool)
    ensures r <==> Lo(p) < Hi(q) && Lo(q) < Hi(p)
  {
    var pf := Forward(p);
    var qf := Forward(q);
    var (thisStart, thisEnd) := (pf.start, pf.end);
    var (otherStart, otherEnd) := (qf.start, qf.end);
    if Abuts(pf, qf) then false
    else if IsBefore(thisStart, otherStart) && IsBefore(thisEnd, otherStart) && IsBefore(thisEnd, otherEnd) then false
    else if IsBefore(thisEnd, otherEnd) then true
    else if IsAfter(thisStart, otherStart) && IsBefore(thisStart, otherEnd) && IsAfter(thisEnd, otherStart) then true
    else if IsAfter(thisStart, otherStart) && IsAfter(thisEnd, otherStart) && IsAfter(thisEnd, otherEnd) then false
    else true
  }

  /** Both relations are symmetric and blind to the direction of either period. */
  lemma AbutsAndOverlapsIgnoreOrderAndDirection(p: TimePeriod, q: TimePeriod)
    ensures Abuts(p, q) == Abuts(q, p) && Overlaps(p, q) == Overlaps(q, p)
    ensures Abuts(Revert(p), q) == Abuts(p, q) && Overlaps(Revert(p), q) == Overlaps(p, q)
  {
  }

  /** Sharing only a boundary instant is abutting, never overlapping. */
  lemma AbuttingPeriodsDoNotOverlap(p: TimePeriod, q: TimePeriod)
    requires Abuts(p, q)
    ensures !Overlaps(p, q)
  {
  }

  /** Two copies of one zero-length period abut but do not overlap. */
  lemma ZeroLengthDoesNotOverlapItself(p: TimePeriod)
    requires IsEqual(p.start, p.end)
    ensures Abuts(p, p) && !Overlaps(p, p)
  {
  }

  /** `contains()`: compares the raw endpoints, without turning either period forward. */
  function Contains(p: TimePeriod, q: TimePeriod): (r: bool)
    ensures !IsBackward(p) && !IsBackward(q) ==> (r <==> Lo(p) <= Lo(q) && Hi(q) <= Hi(p))
    ensures r && IsForward(q) ==> IsForward(p) && Overlaps(p, q)
  {
    IsBeforeOrEqual(p.start, q.start) && IsAfterOrEqual(p.end, q.end)
  }

  /** Containment is a preorder. */
  lemma ContainsIsPreorder(p: TimePeriod, q: TimePeriod, m: TimePeriod)
    ensures Contains(p, p)
    ensures Contains(m, q) && Contains(q, p) ==> Contains(m, p)
  {
  }

  /**
   * Because the endpoints are compared raw, a period contains its own reversal exactly when it
   * is not backward: direction matters to `contains`.
   */
  lemma ContainsOwnReversal(p: TimePeriod)
    ensures Contains(p, Revert(p)) <==> !IsBackward(p)
  {
  }

  /** The period from the earlier raw start to the later raw end, as `merge()` builds it. */
  function Span(p: TimePeriod, q: TimePeriod): (r: TimePeriod)
    ensures Contains(r, p) && Contains(r, q)
    ensures (r.start == p.start || r.start == q.start) && (r.end == p.end || r.end == q.end)
  {
    TimePeriod(
      if IsBeforeOrEqual(p.start, q.start) then p.start else q.start,
      if IsAfterOrEqual(p.end, q.end) then p.end else q.end)
  }

  /** The span is the smallest period containing both. */
  lemma SpanIsLeastContainer(p: TimePeriod, q: TimePeriod, m: TimePeriod)
    requires Contains(m, p) && Contains(m, q)
    ensures Contains(m, Span(p, q))
  {
  }

  /** Of two forward periods, the span is forward and runs from the lower start to the higher end. */
  lemma SpanOfForwardPeriods(p: TimePeriod, q: TimePeriod)
    requires !IsBackward(p) && !IsBackward(q)
    ensures !IsBackward(Span(p, q))
    ensures Lo(Span(p, q)) == (if Lo(p) <= Lo(q) then Lo(p) else Lo(q))
    ensures Hi(Span(p, q)) == (if Hi(p) >= Hi(q) then Hi(p) else Hi(q))
  {
  }

  /**
   * `merge()`: fails with InvalidArgumentException unless the periods overlap, so abutting
   * periods are refused too; otherwise the span of both.
   */
  function Merge(p: TimePeriod, q: TimePeriod): (r: Result<TimePeriod>)
    ensures r.Err? <==> !Overlaps(p, q)
    ensures r.Err? ==> r.error == InvalidArgument
    ensures r.Ok? ==> Contains(r.value, p) && Contains(r.value, q)
    ensures r.Ok? ==> r.value == Span(p, q)
  {
    if !Overlaps(p, q) then Err(InvalidArgument)
    else Ok(Span(p, q))
  }

  /** The evidently intended merge: abutting periods are joined as well. */
  function Coalesce(p: TimePeriod, q: TimePeriod): (r: Result<TimePeriod>)
    ensures r.Err? <==> !Overlaps(p, q) && !Abuts(p, q)
    ensures r.Ok? ==> Contains(r.value, p) && Contains(r.value, q)
    ensures r.Ok? ==> r.value == Span(p, q)
  {
    if !Overlaps(p, q) && !Abuts(p, q) then Err(InvalidArgument)
    else Ok(Span(p, q))
  }

  /** Two forward periods that abut cannot be merged, but they can be coalesced. */
  lemma MergeRefusesAbuttingPeriods(p: TimePeriod, q: TimePeriod)
    requires Abuts(p, q)
    ensures Merge(p, q).Err? && Coalesce(p, q).Ok?
  {
  }

  // ---------------------------------------------------------------------------------------------
  // Examples on 2020-01-01 (day 18262 since the epoch), UTC.

  function DayStart(day: int): DateTime
  {
    DateTime(day * MicrosPerDay, 0)
  }

  lemma ExampleDaysThatAbut()
    ensures var p := TimePeriod(DayStart(18262), DayStart(18266));
      var q := TimePeriod(DayStart(18266), DayStart(18271));
      Abuts(p, q) && !Overlaps(p, q) && Merge(p, q).Err?
  {
  }

  lemma ExampleDaysThatOverlap()
    ensures var p := TimePeriod(DayStart(18262), DayStart(18271));
      var q := TimePeriod(DayStart(18266), DayStart(18269));
      Overlaps(p, q) && Merge(p, q) == Ok(p)
  {
  }

  // ---------------------------------------------------------------------------------------------
  // Sub-periods. The dates that `Interval::toDatePeriod` and `toDatePeriodBackward` generate are
  // an input here; only the mapping of each generated date to a sub-period is modelled.

  /** `iterate()`: each generated date d becomes the period (d, d + step). */
  function Iterate(generated: seq<DateTime>, step: TimeUnit): (r: seq<TimePeriod>)
    ensures |r| == |generated|
    ensures forall i :: 0 <= i < |r| ==> r[i].start == generated[i] && Distance(r[i]) == step
  {
    seq(|generated|, i requires 0 <= i < |generated| => TimePeriod(generated[i], Add(generated[i], step)))
  }

  /**
   * `iterateBackward()`: each generated date d becomes (d + step, d), emitted in the reverse of
   * the generation order; so it is `Iterate` read back to front with every period reverted.
   */
  function IterateBackward(generated: seq<DateTime>, step: TimeUnit): (r: seq<TimePeriod>)
    ensures |r| == |generated|
    ensures forall i :: 0 <= i < |r| ==> r[i] == Revert(Iterate(generated, step)[|r| - 1 - i])
    ensures forall i :: 0 <= i < |r| ==> r[i].end == generated[|r| - 1 - i] && Distance(r[i]) == -step
  {
    var reversed := seq(|generated|, i requires 0 <= i < |generated| => generated[|generated| - 1 - i]);
    seq(|reversed|, i requires 0 <= i < |reversed| => TimePeriod(Add(reversed[i], step), reversed[i]))
  }

  /** With a positive step every sub-period of `Iterate` runs forward, of `IterateBackward` backward. */
  lemma SubPeriodDirections(generated: seq<DateTime>, step: TimeUnit, i: int)
    requires step > 0 && 0 <= i < |generated|
    ensures IsForward(Iterate(generated, step)[i])
    ensures IsBackward(IterateBackward(generated, step)[i])
  {
  }

  // ---------------------------------------------------------------------------------------------
  // DateTime members that build periods.

  /** `$a->until($b)`: the period from a to b. */
  function Until(a: DateTime, b: DateTime): (r: TimePeriod)
    ensures Distance(r) == b.instant - a.instant
  {
    TimePeriod(a, b)
  }

  /** `$a->since($b)`: the period from b to a. */
  function Since(a: DateTime, b: DateTime): (r: TimePeriod)
    ensures Distance(r) == a.instant - b.instant
  {
    TimePeriod(b, a)
  }

  lemma SinceIsReversedUntil(a: DateTime, b: DateTime)
    ensures Since(a, b) == Until(b, a)
    ensures Since(a, b) == Revert(Until(a, b))
  {
  }

  /** `distance()`. */
  function DistanceTo(a: DateTime, b: DateTime): (r: TimeUnit)
    ensures r == b.instant - a.instant
    ensures r > 0 <==> IsBefore(a, b)
  {
    Distance(Until(a, b))
  }

  /** `distanceUntil()`. */
  function DistanceUntil(a: DateTime, b: DateTime): (r: TimeUnit)
    ensures r == DistanceTo(a, b)
  {
    Distance(Until(a, b))
  }

  /** `distanceSince()`. */
  function DistanceSince(a: DateTime, b: DateTime): (r: TimeUnit)
    ensures r == -DistanceUntil(a, b)
    ensures r == DistanceUntil(b, a)
  {
    Distance(Since(a, b))
  }

  /** Which way `DateTime::iterate` walks, and over which period. */
  datatype Walk = Walk(period: TimePeriod, backward: bool)

  /**
   * `$from->iterate($to, $by)` walks backward over `since($to)` when `to` is strictly before
   * `from`, and forward over `until($to)` otherwise. Either way the period it walks is never
   * backward, and its endpoints are `from` and `to`.
   */
  function PlanIteration(from: DateTime, to: DateTime): (w: Walk)
    ensures w.backward <==> IsBefore(to, from)
    ensures !IsBackward(w.period)
    ensures w.backward ==> w.period.start == to && w.period.end == from
    ensures !w.backward ==> w.period.start == from && w.period.end == to
  {
    if IsBefore(to, from) then Walk(Since(from, to), true) else Walk(Until(from, to), false)
  }

  /**
   * `$from->iterate($to, $by)`, given the dates the closed interval generates over the planned
   * period. Every sub-period has length `step`, signed by the direction of the walk.
   */
  function IterateTo(from: DateTime, to: DateTime, step: TimeUnit, generated: seq<DateTime>): (r: seq<TimePeriod>)
    ensures |r| == |generated|
    ensures forall i :: 0 <= i < |r| ==>
      Distance(r[i]) == if IsBefore(to, from) then -step else step
  {
    var walk := PlanIteration(from, to);
    if walk.backward then IterateBackward(generated, step) else Iterate(generated, step)
  }
}
