/**
 * Aeon's `TimePeriods`: an ordered collection of time periods. Every operation returns a new
 * collection; `sortBy` sorts a local copy in place and `gaps` sweeps the sorted copy in a loop.
 */
module PeriodSets {
  import opened Wrappers
  import opened DateTimes
  import opened Periods

  datatype TimePeriods = TimePeriods(periods: seq<TimePeriod>)

  function Count(ps: TimePeriods): (n: nat)
    ensures n == |multiset(ps.periods)|
  {
    |ps.periods|
  }

  /** `add(...$timePeriods)`: the given periods appended, nothing removed or joined. */
  function Add(ps: TimePeriods, more: seq<TimePeriod>): (r: TimePeriods)
    ensures Count(r) == Count(ps) + |more|
    ensures r.periods[..Count(ps)] == ps.periods && r.periods[Count(ps)..] == more
  {
    TimePeriods(ps.periods + more)
  }

  /** `merge($timePeriods)`: the other collection appended, nothing removed or joined. */
  function Merge(ps: TimePeriods, qs: TimePeriods): (r: TimePeriods)
    ensures Count(r) == Count(ps) + Count(qs)
    ensures r.periods[..Count(ps)] == ps.periods && r.periods[Count(ps)..] == qs.periods
  {
    TimePeriods(ps.periods + qs.periods)
  }

  /** The matching periods of `s`, in their order. */
  function Matching(s: seq<TimePeriod>, keep: TimePeriod -> bool): (r: seq<TimePeriod>)
    ensures |r| <= |s|
    ensures forall p :: p in r <==> p in s && keep(p)
  {
    if s == [] then []
    else if keep(s[0]) then [s[0]] + Matching(s[1..], keep)
    else Matching(s[1..], keep)
  }

  /** `filter($iterator)`. */
  function Filter(ps: TimePeriods, keep: TimePeriod -> bool): (r: TimePeriods)
    ensures Count(r) <= Count(ps)
    ensures forall p :: p in r.periods <==> p in ps.periods && keep(p)
  {
    TimePeriods(Matching(ps.periods, keep))
  }

  /** Filtering commutes with concatenation, so it keeps the relative order of what it keeps. */
  lemma {:induction false} FilterDistributesOverMerge(ps: TimePeriods, qs: TimePeriods, keep: TimePeriod -> bool)
    ensures Filter(Merge(ps, qs), keep) == Merge(Filter(ps, keep), Filter(qs, keep))
  {
    MatchingDistributes(ps.periods, qs.periods, keep);
  }

  lemma {:induction false} MatchingDistributes(a: seq<TimePeriod>, b: seq<TimePeriod>, keep: TimePeriod -> bool)
    ensures Matching(a + b, keep) == Matching(a, keep) + Matching(b, keep)
  {
    if a != [] {
      assert (a + b)[1..] == a[1..] + b;
      MatchingDistributes(a[1..], b, keep);
    } else {
      assert a + b == b;
    }
  }

  /** A filter that keeps everything is the identity. */
  lemma {:induction false} FilterKeepingAllIsIdentity(ps: TimePeriods, keep: TimePeriod -> bool)
    requires forall p :: p in ps.periods ==> keep(p)
    ensures Filter(ps, keep) == ps
  {
    MatchingAll(ps.periods, keep);
  }

  lemma {:induction false} MatchingAll(s: seq<TimePeriod>, keep: TimePeriod -> bool)
    requires forall p :: p in s ==> keep(p)
    ensures Matching(s, keep) == s
  {
    if s != [] {
      assert forall p :: p in s[1..] ==> p in s;
      MatchingAll(s[1..], keep);
    }
  }

  /** `first()`: null on an empty collection. */
  function First(ps: TimePeriods): (r: Option<TimePeriod>)
    ensures r.None? <==> Count(ps) == 0
    ensures r.Some? ==> r.value == ps.periods[0]
  {
    if |ps.periods| == 0 then None else Some(ps.periods[0])
  }

  /** `last()`: null on an empty collection. */
  function Last(ps: TimePeriods): (r: Option<TimePeriod>)
    ensures r.None? <==> Count(ps) == 0
    ensures r.Some? ==> r.value == ps.periods[|ps.periods| - 1]
  {
    if |ps.periods| == 0 then None else Some(ps.periods[|ps.periods| - 1])
  }

  /** The ends of a merged collection come from its non-empty parts. */
  lemma FirstAndLastOfMerge(ps: TimePeriods, qs: TimePeriods)
    ensures First(Merge(ps, qs)) == if Count(ps) == 0 then First(qs) else First(ps)
    ensures Last(Merge(ps, qs)) == if Count(qs) == 0 then Last(ps) else Last(qs)
  {
  }

  // ---------------------------------------------------------------------------------------------
  // Sorting.

  datatype SortKey = StartDate | EndDate

  /** `TimePeriodsSort`: which endpoint to sort on, and in which direction. */
  datatype TimePeriodsSort = TimePeriodsSort(key: SortKey, ascending: bool)

  /** `TimePeriodsSort::asc()`, the order `sort()` uses. */
  const Asc := TimePeriodsSort(StartDate, true)

  function Key(key: SortKey, p: TimePeriod): int
  {
    match key
    case StartDate => p.start.instant
    case EndDate => p.end.instant
  }

  /** The comparator of `sortBy`, as a number that ascends along the requested order. */
  function Rank(sort: TimePeriodsSort, p: TimePeriod): int
  {
    if sort.ascending then Key(sort.key, p) else -Key(sort.key, p)
  }

  /** `s` follows the order: the chosen endpoint ascends (or descends) along `s`. */
  ghost predicate InOrder(sort: TimePeriodsSort, s: seq<TimePeriod>)
  {
    forall i, j :: 0 <= i < j < |s| ==> Rank(sort, s[i]) <= Rank(sort, s[j])
  }

  /** Puts `x` after every trailing element of `s` that ranks above it. */
  function Insert(sort: TimePeriodsSort, x: TimePeriod, s: seq<TimePeriod>): seq<TimePeriod>
    decreases |s|
  {
    if s == [] || Rank(sort, s[|s| - 1]) <= Rank(sort, x) then s + [x]
    else Insert(sort, x, s[..|s| - 1]) + [s[|s| - 1]]
  }

  /** Stable insertion sort: the result of sorting `s` with `uasort` and the comparator. */
  function Sorted(sort: TimePeriodsSort, s: seq<TimePeriod>): seq<TimePeriod>
    decreases |s|
  {
    if s == [] then [] else Insert(sort, s[|s| - 1], Sorted(sort, s[..|s| - 1]))
  }

  lemma {:induction false} InsertKeepsElements(sort: TimePeriodsSort, x: TimePeriod, s: seq<TimePeriod>)
    ensures multiset(Insert(sort, x, s)) == multiset(s) + multiset{x}
    decreases |s|
  {
    if s != [] && Rank(sort, s[|s| - 1]) > Rank(sort, x) {
      InsertKeepsElements(sort, x, s[..|s| - 1]);
      assert s == s[..|s| - 1] + [s[|s| - 1]];
    }
  }

  lemma {:induction false} InsertKeepsBound(sort: TimePeriodsSort, x: TimePeriod, s: seq<TimePeriod>, bound: int)
    requires forall k :: 0 <= k < |s| ==> Rank(sort, s[k]) <= bound
    requires Rank(sort, x) <= bound
    ensures forall k :: 0 <= k < |Insert(sort, x, s)| ==> Rank(sort, Insert(sort, x, s)[k]) <= bound
    decreases |s|
  {
    if s != [] && Rank(sort, s[|s| - 1]) > Rank(sort, x) {
      InsertKeepsBound(sort, x, s[..|s| - 1], bound);
    }
  }

  lemma {:induction false} InsertKeepsOrder(sort: TimePeriodsSort, x: TimePeriod, s: seq<TimePeriod>)
    requires InOrder(sort, s)
    ensures InOrder(sort, Insert(sort, x, s))
    decreases |s|
  {
    if s != [] && Rank(sort, s[|s| - 1]) > Rank(sort, x) {
      var init, last := s[..|s| - 1], s[|s| - 1];
      InsertKeepsOrder(sort, x, init);
      InsertKeepsBound(sort, x, init, Rank(sort, last));
    }
  }

  /** The sort returns its input reordered. */
  lemma {:induction false} SortedIsPermutation(sort: TimePeriodsSort, s: seq<TimePeriod>)
    ensures multiset(Sorted(sort, s)) == multiset(s)
    decreases |s|
  {
    if s != [] {
      SortedIsPermutation(sort, s[..|s| - 1]);
      InsertKeepsElements(sort, s[|s| - 1], Sorted(sort, s[..|s| - 1]));
      assert s == s[..|s| - 1] + [s[|s| - 1]];
    }
  }

  /** The sort returns its input in the requested order. */
  lemma {:induction false} SortedIsInOrder(sort: TimePeriodsSort, s: seq<TimePeriod>)
    ensures InOrder(sort, Sorted(sort, s))
    decreases |s|
  {
    if s != [] {
      SortedIsInOrder(sort, s[..|s| - 1]);
      InsertKeepsOrder(sort, s[|s| - 1], Sorted(sort, s[..|s| - 1]));
    }
  }

  /** The periods of `s` whose sort key is `k`, in their order. */
  function WithKey(key: SortKey, k: int, s: seq<TimePeriod>): seq<TimePeriod>
    decreases |s|
  {
    if s == [] then []
    else WithKey(key, k, s[..|s| - 1]) + (if Key(key, s[|s| - 1]) == k then [s[|s| - 1]] else [])
  }

  lemma {:induction false} WithKeyOfInsert(sort: TimePeriodsSort, k: int, x: TimePeriod, s: seq<TimePeriod>)
    ensures WithKey(sort.key, k, Insert(sort, x, s))
         == WithKey(sort.key, k, s) + (if Key(sort.key, x) == k then [x] else [])
    decreases |s|
  {
    var r := Insert(sort, x, s);
    if s == [] || Rank(sort, s[|s| - 1]) <= Rank(sort, x) {
      assert r[..|r| - 1] == s;
    } else {
      var init, last := s[..|s| - 1], s[|s| - 1];
      WithKeyOfInsert(sort, k, x, init);
      assert r[..|r| - 1] == Insert(sort, x, init);
      assert Key(sort.key, last) != Key(sort.key, x);
    }
  }

  /**
   * The sort is stable: for every key value, the periods carrying it keep their input order.
   */
  lemma {:induction false} SortedIsStable(sort: TimePeriodsSort, k: int, s: seq<TimePeriod>)
    ensures WithKey(sort.key, k, Sorted(sort, s)) == WithKey(sort.key, k, s)
    decreases |s|
  {
    if s != [] {
      var init, last := s[..|s| - 1], s[|s| - 1];
      SortedIsStable(sort, k, init);
      WithKeyOfInsert(sort, k, last, Sorted(sort, init));
    }
  }

  /**
   * `x` goes in at index `j` when every period from `j` on ranks above it and the one before
   * `j` (if any) does not.
   */
  lemma {:induction false} InsertAt(sort: TimePeriodsSort, x: TimePeriod, prefix: seq<TimePeriod>, j: int)
    requires 0 <= j <= |prefix|
    requires j == 0 || Rank(sort, prefix[j - 1]) <= Rank(sort, x)
    requires forall k :: j <= k < |prefix| ==> Rank(sort, prefix[k]) > Rank(sort, x)
    ensures Insert(sort, x, prefix) == prefix[..j] + [x] + prefix[j..]
    decreases |prefix|
  {
    if j < |prefix| {
      var init := prefix[..|prefix| - 1];
      assert init[..j] == prefix[..j];
      InsertAt(sort, x, init, j);
      assert prefix[j..] == init[j..] + [prefix[|prefix| - 1]];
    } else {
      assert prefix[..j] == prefix;
    }
  }

  /**
   * One step of the insertion sort: the period at index `i` moves left past every period of the
   * sorted prefix that ranks above it.
   */
  method InsertInPlace(a: array<TimePeriod>, i: int, sort: TimePeriodsSort)
    requires 0 <= i < a.Length
    modifies a
    ensures a[..i + 1] == Insert(sort, old(a[i]), old(a[..i]))
    ensures a[i + 1..] == old(a[i + 1..])
  {
    ghost var prefix := a[..i];
    var x := a[i];
    var j := i;
    while j > 0 && Rank(sort, a[j - 1]) > Rank(sort, x)
      invariant 0 <= j <= i
      invariant forall k :: 0 <= k < j ==> a[k] == prefix[k]
      invariant forall k :: j < k <= i ==> a[k] == prefix[k - 1]
      invariant forall k :: j <= k < i ==> Rank(sort, prefix[k]) > Rank(sort, x)
      invariant forall k :: i < k < a.Length ==> a[k] == old(a[k])
    {
      a[j] := a[j - 1];
      j := j - 1;
    }
    a[j] := x;
    InsertAt(sort, x, prefix, j);
    assert a[..i + 1] == prefix[..j] + [x] + prefix[j..];
  }

  /** Stable insertion sort of the whole array, one insertion step per element. */
  method SortInPlace(a: array<TimePeriod>, sort: TimePeriodsSort)
    modifies a
    ensures a[..] == Sorted(sort, old(a[..]))
  {
    ghost var s := a[..];
    var i := 0;
    while i < a.Length
      invariant 0 <= i <= a.Length
      invariant a[..i] == Sorted(sort, s[..i])
      invariant a[i..] == s[i..]
    {
      assert a[i] == s[i] && a[i + 1..] == s[i + 1..] by {
        assert a[i..][0] == a[i] && a[i..][1..] == a[i + 1..];
      }
      InsertInPlace(a, i, sort);
      assert s[..i + 1][..i] == s[..i];
      i := i + 1;
    }
    assert s[..a.Length] == s;
  }

  /**
   * `sortBy($sort)`: sorts a copy of the periods in place (insertion sort standing for `uasort`;
   * a stable sort has exactly one result) and returns them as a new collection.
   */
  method SortBy(ps: TimePeriods, sort: TimePeriodsSort) returns (r: TimePeriods)
    ensures r.periods == Sorted(sort, ps.periods)
    ensures InOrder(sort, r.periods)
    ensures multiset(r.periods) == multiset(ps.periods)
  {
    var a := new TimePeriod[|ps.periods|](i requires 0 <= i < |ps.periods| => ps.periods[i]);
    assert a[..] == ps.periods;
    SortInPlace(a, sort);
    r := TimePeriods(a[..]);
    SortedIsInOrder(sort, ps.periods);
    SortedIsPermutation(sort, ps.periods);
  }

  /** `sort()`: ascending by start date. */
  method Sort(ps: TimePeriods) returns (r: TimePeriods)
    ensures r.periods == Sorted(Asc, ps.periods)
    ensures forall i, j :: 0 <= i < j < Count(r) ==> r.periods[i].start.instant <= r.periods[j].start.instant
    ensures multiset(r.periods) == multiset(ps.periods)
  {
    r := SortBy(ps, Asc);
  }

  // ---------------------------------------------------------------------------------------------
  // Gaps, as written: sort by raw start, then turn every period forward, then sweep; an
  // accumulator that abuts the next period is handed to `merge`, which refuses it.

  /** The `array_map` step of `gaps()`: every period turned forward, in order. */
  function Forwards(s: seq<TimePeriod>): (r: seq<TimePeriod>)
    ensures |r| == |s|
    ensures forall i :: 0 <= i < |r| ==> r[i] == Forward(s[i])
  {
    seq(|s|, i requires 0 <= i < |s| => Forward(s[i]))
  }

  /** The gaps the loop of `gaps()` emits from accumulator `acc` over the periods `rest`. */
  function Sweep(acc: TimePeriod, rest: seq<TimePeriod>): (r: Result<seq<TimePeriod>>)
    ensures r.Err? ==> r.error == InvalidArgument
    decreases |rest|
  {
    if rest == [] then Ok([])
    else if Overlaps(acc, rest[0]) || Abuts(acc, rest[0]) then
      match Periods.Merge(acc, rest[0])
      case Err(e) => Err(e)
      case Ok(merged) => Sweep(merged, rest[1..])
    else
      match Sweep(rest[0], rest[1..])
      case Err(e) => Err(e)
      case Ok(gaps) => Ok([TimePeriod(acc.end, rest[0].start)] + gaps)
  }

  /** `gaps()` as a function of the collection. */
  function GapsOf(ps: TimePeriods): (r: Result<TimePeriods>)
    ensures r.Err? ==> r.error == InvalidArgument
  {
    var periods := Forwards(Sorted(Asc, ps.periods));
    if periods == [] then Ok(TimePeriods([]))
    else match Sweep(periods[0], periods[1..])
      case Err(e) => Err(e)
      case Ok(gaps) => Ok(TimePeriods(gaps))
  }

  /** `gaps` already emitted, followed by what the rest of the sweep produces. */
  function Prepend(gaps: seq<TimePeriod>, r: Result<seq<TimePeriod>>): Result<seq<TimePeriod>>
  {
    match r
    case Err(e) => Err(e)
    case Ok(more) => Ok(gaps + more)
  }

  lemma PrependNothing(r: Result<seq<TimePeriod>>)
    ensures Prepend([], r) == r
  {
    if r.Ok? {
      assert [] + r.value == r.value;
    }
  }

  /** One joining step of the sweep, at position `k` of `periods`. */
  lemma SweepJoinStep(head: Result<seq<TimePeriod>>, gaps: seq<TimePeriod>, acc: TimePeriod, periods: seq<TimePeriod>, k: int)
    requires 0 <= k < |periods| && (Overlaps(acc, periods[k]) || Abuts(acc, periods[k]))
    requires head == Prepend(gaps, Sweep(acc, periods[k..]))
    ensures Periods.Merge(acc, periods[k]).Err? ==> head == Err(Periods.Merge(acc, periods[k]).error)
    ensures Periods.Merge(acc, periods[k]).Ok? ==>
      head == Prepend(gaps, Sweep(Periods.Merge(acc, periods[k]).value, periods[k + 1..]))
  {
    assert periods[k..][0] == periods[k] && periods[k..][1..] == periods[k + 1..];
  }

  /** One gap-emitting step of the sweep, at position `k` of `periods`. */
  lemma SweepGapStep(head: Result<seq<TimePeriod>>, gaps: seq<TimePeriod>, acc: TimePeriod, periods: seq<TimePeriod>, k: int)
    requires 0 <= k < |periods| && !Overlaps(acc, periods[k]) && !Abuts(acc, periods[k])
    requires head == Prepend(gaps, Sweep(acc, periods[k..]))
    ensures head == Prepend(gaps + [TimePeriod(acc.end, periods[k].start)], Sweep(periods[k], periods[k + 1..]))
  {
    var rest := periods[k..];
    assert rest[0] == periods[k] && rest[1..] == periods[k + 1..];
    SweepEmitsGap(gaps, acc, rest);
  }

  lemma SweepEmitsGap(gaps: seq<TimePeriod>, acc: TimePeriod, rest: seq<TimePeriod>)
    requires rest != [] && !Overlaps(acc, rest[0]) && !Abuts(acc, rest[0])
    ensures Prepend(gaps, Sweep(acc, rest))
         == Prepend(gaps + [TimePeriod(acc.end, rest[0].start)], Sweep(rest[0], rest[1..]))
  {
    var r := Sweep(rest[0], rest[1..]);
    if r.Ok? {
      assert gaps + ([TimePeriod(acc.end, rest[0].start)] + r.value)
          == (gaps + [TimePeriod(acc.end, rest[0].start)]) + r.value;
    }
  }

  /** `gaps()`: the `while`/`next()` loop over the sorted, forward-turned periods. */
  method Gaps(ps: TimePeriods) returns (r: Result<TimePeriods>)
    ensures r == GapsOf(ps)
  {
    var sorted := Sort(ps);
    var periods := Forwards(sorted.periods);
    if |periods| == 0 {
      return Ok(TimePeriods([]));
    }
    var gaps: seq<TimePeriod> := [];
    var totalPeriod := periods[0];
    var k := 1;
    PrependNothing(Sweep(totalPeriod, periods[k..]));
    while k < |periods|
      invariant 1 <= k <= |periods|
      invariant Sweep(periods[0], periods[1..]) == Prepend(gaps, Sweep(totalPeriod, periods[k..]))
    {
      var period := periods[k];
      if Overlaps(totalPeriod, period) || Abuts(totalPeriod, period) {
        SweepJoinStep(Sweep(periods[0], periods[1..]), gaps, totalPeriod, periods, k);
        var merged := Periods.Merge(totalPeriod, period);
        if merged.Err? {
          return Err(merged.error);
        }
        totalPeriod := merged.value;
      } else {
        SweepGapStep(Sweep(periods[0], periods[1..]), gaps, totalPeriod, periods, k);
        gaps := gaps + [TimePeriod(totalPeriod.end, period.start)];
        totalPeriod := period;
      }
      k := k + 1;
    }
    assert gaps + [] == gaps;
    r := Ok(TimePeriods(gaps));
  }

  lemma SortedLength(sort: TimePeriodsSort, s: seq<TimePeriod>)
    ensures |Sorted(sort, s)| == |s|
  {
    SortedIsPermutation(sort, s);
    assert |multiset(Sorted(sort, s))| == |multiset(s)|;
  }

  /** An empty or one-period collection has no gaps. */
  lemma GapsOfFewPeriodsIsEmpty(ps: TimePeriods)
    requires Count(ps) <= 1
    ensures GapsOf(ps) == Ok(TimePeriods([]))
  {
    SortedLength(Asc, ps.periods);
  }

  lemma {:induction false} SweepEmitsAtMostOneGapPerPeriod(acc: TimePeriod, rest: seq<TimePeriod>)
    ensures Sweep(acc, rest).Ok? ==> |Sweep(acc, rest).value| <= |rest|
    decreases |rest|
  {
    if rest != [] {
      if Overlaps(acc, rest[0]) || Abuts(acc, rest[0]) {
        if Periods.Merge(acc, rest[0]).Ok? {
          SweepEmitsAtMostOneGapPerPeriod(Periods.Merge(acc, rest[0]).value, rest[1..]);
        }
      } else {
        SweepEmitsAtMostOneGapPerPeriod(rest[0], rest[1..]);
      }
    }
  }

  /** There are at most one fewer gaps than periods. */
  lemma GapsOfCount(ps: TimePeriods)
    requires Count(ps) > 0
    ensures GapsOf(ps).Ok? ==> Count(GapsOf(ps).value) <= Count(ps) - 1
  {
    SortedLength(Asc, ps.periods);
    var periods := Forwards(Sorted(Asc, ps.periods));
    SweepEmitsAtMostOneGapPerPeriod(periods[0], periods[1..]);
  }

  /**
   * The sweep emits only forward gaps as long as no period ends before the accumulator, or an
   * earlier period, starts.
   */
  lemma {:induction false} SweepGapsAreForward(acc: TimePeriod, rest: seq<TimePeriod>)
    requires !IsBackward(acc) && forall j :: 0 <= j < |rest| ==> !IsBackward(rest[j])
    requires forall j :: 0 <= j < |rest| ==> acc.start.instant <= rest[j].end.instant
    requires forall i, j :: 0 <= i < j < |rest| ==> rest[i].start.instant <= rest[j].end.instant
    ensures Sweep(acc, rest).Ok? ==> forall g :: g in Sweep(acc, rest).value ==> IsForward(g)
    decreases |rest|
  {
    if rest != [] {
      var q := rest[0];
      if Overlaps(acc, q) || Abuts(acc, q) {
        if Periods.Merge(acc, q).Ok? {
          SpanOfForwardPeriods(acc, q);
          SweepGapsAreForward(Periods.Merge(acc, q).value, rest[1..]);
        }
      } else {
        SweepGapsAreForward(q, rest[1..]);
        assert IsForward(TimePeriod(acc.end, q.start));
      }
    }
  }

  /**
   * Every gap `gaps()` emits runs forward, even with backward periods in the collection:
   * sorting by raw start keeps each forward-turned period from ending before the accumulator
   * starts.
   */
  lemma GapsOfAreForward(ps: TimePeriods)
    ensures GapsOf(ps).Ok? ==> forall g :: g in GapsOf(ps).value.periods ==> IsForward(g)
  {
    var periods := Forwards(Sorted(Asc, ps.periods));
    if periods != [] {
      ForwardsOfSortedEndAfterEarlierStarts(ps.periods);
      SweepGapsAreForward(periods[0], periods[1..]);
    }
  }

  /** Sorted by raw start and then turned forward, no period ends before an earlier one starts. */
  lemma ForwardsOfSortedEndAfterEarlierStarts(s: seq<TimePeriod>)
    requires Forwards(Sorted(Asc, s)) != []
    ensures var periods := Forwards(Sorted(Asc, s));
      var acc, rest := periods[0], periods[1..];
      && !IsBackward(acc) && (forall j :: 0 <= j < |rest| ==> !IsBackward(rest[j]))
      && (forall j :: 0 <= j < |rest| ==> acc.start.instant <= rest[j].end.instant)
      && (forall i, j :: 0 <= i < j < |rest| ==> rest[i].start.instant <= rest[j].end.instant)
  {
    var sorted := Sorted(Asc, s);
    SortedIsInOrder(Asc, s);
    var periods := Forwards(sorted);
    forall i, j | 0 <= i < j < |periods| ensures periods[i].start.instant <= periods[j].end.instant {
      assert Rank(Asc, sorted[i]) <= Rank(Asc, sorted[j]);
    }
  }

  /** A period from `a` to `b` (microseconds since the epoch), in UTC. */
  function Between(a: int, b: int): TimePeriod
  {
    TimePeriod(DateTime(a, 0), DateTime(b, 0))
  }

  /** Sorting a collection that is already in order changes nothing. */
  lemma {:induction false} SortedKeepsOrderedInput(sort: TimePeriodsSort, s: seq<TimePeriod>)
    requires InOrder(sort, s)
    ensures Sorted(sort, s) == s
    decreases |s|
  {
    if s != [] {
      var init := s[..|s| - 1];
      assert InOrder(sort, init) by {
        forall i, j | 0 <= i < j < |init| ensures Rank(sort, init[i]) <= Rank(sort, init[j]) {
          assert init[i] == s[i] && init[j] == s[j];
        }
      }
      SortedKeepsOrderedInput(sort, init);
      assert init + [s[|s| - 1]] == s;
    }
  }

  /** Sorting twice sorts once. */
  lemma SortingIsIdempotent(sort: TimePeriodsSort, s: seq<TimePeriod>)
    ensures Sorted(sort, Sorted(sort, s)) == Sorted(sort, s)
  {
    SortedIsInOrder(sort, s);
    SortedKeepsOrderedInput(sort, Sorted(sort, s));
  }

  /** The sweep as written, from one period over a second that abuts it. */
  lemma SweepOverAbuttingInput()
    ensures Sweep(Between(0, 10), [Between(10, 20)]) == Err(InvalidArgument)
  {
    assert Abuts(Between(0, 10), Between(10, 20)) && !Overlaps(Between(0, 10), Between(10, 20));
  }

  /** Two abutting periods make `gaps()` throw: the abuts branch calls `merge`. */
  lemma GapsOfFailsOnAbuttingPeriods()
    ensures GapsOf(TimePeriods([Between(0, 10), Between(10, 20)])) == Err(InvalidArgument)
  {
    var s := [Between(0, 10), Between(10, 20)];
    SortedKeepsOrderedInput(Asc, s);
    assert Forwards(s) == s;
    assert s[1..] == [Between(10, 20)];
    SweepOverAbuttingInput();
  }

  /** The sweep as written over the covered-span input, once sorted and turned forward. */
  lemma SweepOverCoveredSpanInput()
    ensures Sweep(Between(3, 4), [Between(5, 6), Between(1, 10)]) == Ok([Between(4, 5)])
  {
    var rest := [Between(5, 6), Between(1, 10)];
    assert rest[1..] == [Between(1, 10)];
    assert Overlaps(Between(5, 6), Between(1, 10));
    assert Periods.Merge(Between(5, 6), Between(1, 10)) == Ok(Between(1, 10));
    assert Sweep(Between(5, 6), rest[1..]) == Ok([]);
    assert !Overlaps(Between(3, 4), Between(5, 6)) && !Abuts(Between(3, 4), Between(5, 6));
    assert [Between(4, 5)] + [] == [Between(4, 5)];
  }

  /**
   * A backward period is placed by its raw start, after periods it covers once turned
   * forward, so the span from 4 to 5, covered by the period from 10 back to 1, is reported as
   * a gap.
   */
  lemma GapsOfReportsCoveredSpan()
    ensures GapsOf(TimePeriods([Between(3, 4), Between(5, 6), Between(10, 1)])) == Ok(TimePeriods([Between(4, 5)]))
    ensures Overlaps(Between(4, 5), Between(10, 1))
  {
    var periods := [Between(3, 4), Between(5, 6), Between(1, 10)];
    SweepOrderOfCoveredSpanInput();
    assert periods[1..] == [Between(5, 6), Between(1, 10)];
    SweepOverCoveredSpanInput();
  }

  /** As written, the covered-span input keeps its order and only then is turned forward. */
  lemma SweepOrderOfCoveredSpanInput()
    ensures Forwards(Sorted(Asc, [Between(3, 4), Between(5, 6), Between(10, 1)]))
      == [Between(3, 4), Between(5, 6), Between(1, 10)]
  {
    var s := [Between(3, 4), Between(5, 6), Between(10, 1)];
    assert s[..2] == [Between(3, 4), Between(5, 6)] && s[..2][..1] == [Between(3, 4)];
    assert Sorted(Asc, s[..2][..1]) == s[..2][..1];
    assert Sorted(Asc, s[..2]) == s[..2];
    assert Sorted(Asc, s) == s;
    var f := Forwards(s);
    assert f[0] == Between(3, 4) && f[1] == Between(5, 6) && f[2] == Between(1, 10);
  }

  // ---------------------------------------------------------------------------------------------
  // Gaps, as evidently intended: turn every period forward, then sort by start, then sweep,
  // joining the accumulator with every period it overlaps or abuts.

  /** The gaps the intended sweep emits from accumulator `acc` over the periods `rest`. */
  function CoalescingSweep(acc: TimePeriod, rest: seq<TimePeriod>): seq<TimePeriod>
    decreases |rest|
  {
    if rest == [] then []
    else if Overlaps(acc, rest[0]) || Abuts(acc, rest[0]) then
      CoalescingSweep(Coalesce(acc, rest[0]).value, rest[1..])
    else
      [TimePeriod(acc.end, rest[0].start)] + CoalescingSweep(rest[0], rest[1..])
  }

  /** The intended `gaps()` as a function of the collection. */
  function CoalescedGapsOf(ps: TimePeriods): TimePeriods
  {
    var periods := Sorted(Asc, Forwards(ps.periods));
    if periods == [] then TimePeriods([])
    else TimePeriods(CoalescingSweep(periods[0], periods[1..]))
  }

  /** The sweep's input: forward periods, sorted by start, none starting before the accumulator. */
  ghost predicate SweepReady(acc: TimePeriod, rest: seq<TimePeriod>)
  {
    && !IsBackward(acc)
    && (forall j :: 0 <= j < |rest| ==> !IsBackward(rest[j]) && acc.start.instant <= rest[j].start.instant)
    && (forall i, j :: 0 <= i < j < |rest| ==> rest[i].start.instant <= rest[j].start.instant)
  }

  /**
   * At most one gap per period, every gap forward, after the accumulator's end and after every
   * earlier gap, and overlapping none of the periods.
   */
  ghost predicate SoundGaps(acc: TimePeriod, rest: seq<TimePeriod>, gaps: seq<TimePeriod>)
  {
    && |gaps| <= |rest|
    && (forall i :: 0 <= i < |gaps| ==> IsForward(gaps[i]) && acc.end.instant <= gaps[i].start.instant)
    && (forall i, j :: 0 <= i < j < |gaps| ==> gaps[i].end.instant <= gaps[j].start.instant)
    && (forall i, j :: 0 <= i < |gaps| && 0 <= j < |rest| ==> !Overlaps(gaps[i], rest[j]))
  }

  /** Joining the next period keeps the sweep's input ready, and its gaps sound for the join. */
  lemma SoundAfterJoin(acc: TimePeriod, rest: seq<TimePeriod>, gaps: seq<TimePeriod>)
    requires rest != [] && SweepReady(acc, rest)
    requires Overlaps(acc, rest[0]) || Abuts(acc, rest[0])
    ensures SweepReady(Coalesce(acc, rest[0]).value, rest[1..])
    ensures SoundGaps(Coalesce(acc, rest[0]).value, rest[1..], gaps) ==> SoundGaps(acc, rest, gaps)
  {
    var merged := Coalesce(acc, rest[0]).value;
    SpanOfForwardPeriods(acc, rest[0]);
    if SoundGaps(merged, rest[1..], gaps) {
      forall i, j | 0 <= i < |gaps| && 0 <= j < |rest| ensures !Overlaps(gaps[i], rest[j]) {
        if j > 0 {
          assert rest[j] == rest[1..][j - 1];
        }
      }
    }
  }

  /** A period that ends where or before another starts overlaps it in neither order. */
  lemma SeparatedPeriodsDoNotOverlap(p: TimePeriod, q: TimePeriod)
    requires Hi(p) <= Lo(q)
    ensures !Overlaps(p, q) && !Overlaps(q, p)
  {
  }

  /** Between an accumulator and a next period that it neither overlaps nor abuts lies a gap. */
  lemma ApartFromNext(acc: TimePeriod, q: TimePeriod)
    requires !IsBackward(acc) && !IsBackward(q) && acc.start.instant <= q.start.instant
    requires !Overlaps(acc, q) && !Abuts(acc, q)
    ensures acc.end.instant < q.start.instant
  {
  }

  /** A gap emitted before the next period overlaps none of the periods still to come. */
  lemma GapsAfterGapAreUncovered(acc: TimePeriod, rest: seq<TimePeriod>, later: seq<TimePeriod>)
    requires rest != [] && SweepReady(acc, rest)
    requires acc.end.instant < rest[0].start.instant
    requires SoundGaps(rest[0], rest[1..], later)
    ensures var gaps := [TimePeriod(acc.end, rest[0].start)] + later;
      forall i, j :: 0 <= i < |gaps| && 0 <= j < |rest| ==> !Overlaps(gaps[i], rest[j])
  {
    var gap := TimePeriod(acc.end, rest[0].start);
    var gaps := [gap] + later;
    forall i, j | 0 <= i < |gaps| && 0 <= j < |rest| ensures !Overlaps(gaps[i], rest[j]) {
      if i == 0 {
        SeparatedPeriodsDoNotOverlap(gap, rest[j]);
      } else if j == 0 {
        assert gaps[i] == later[i - 1];
        SeparatedPeriodsDoNotOverlap(rest[0], gaps[i]);
      } else {
        assert gaps[i] == later[i - 1] && rest[j] == rest[1..][j - 1];
      }
    }
  }

  /** Emitting a gap before the next period keeps the sweep's gaps sound. */
  lemma SoundAfterGap(acc: TimePeriod, rest: seq<TimePeriod>, later: seq<TimePeriod>)
    requires rest != [] && SweepReady(acc, rest)
    requires !Overlaps(acc, rest[0]) && !Abuts(acc, rest[0])
    ensures SweepReady(rest[0], rest[1..])
    ensures SoundGaps(rest[0], rest[1..], later) ==>
      SoundGaps(acc, rest, [TimePeriod(acc.end, rest[0].start)] + later)
  {
    var q, tail := rest[0], rest[1..];
    ApartFromNext(acc, q);
    forall j | 0 <= j < |tail| ensures !IsBackward(tail[j]) && q.start.instant <= tail[j].start.instant {
      assert tail[j] == rest[j + 1];
    }
    if SoundGaps(q, tail, later) {
      GapsAfterGapAreUncovered(acc, rest, later);
      GapsAfterGapAscend(acc, q, later);
    }
  }

  /** A gap emitted before the next period runs forward and precedes the gaps after it. */
  lemma GapsAfterGapAscend(acc: TimePeriod, q: TimePeriod, later: seq<TimePeriod>)
    requires acc.end.instant < q.start.instant && q.start.instant <= q.end.instant
    requires forall i :: 0 <= i < |later| ==> IsForward(later[i]) && q.end.instant <= later[i].start.instant
    requires forall i, j :: 0 <= i < j < |later| ==> later[i].end.instant <= later[j].start.instant
    ensures var gaps := [TimePeriod(acc.end, q.start)] + later;
      && (forall i :: 0 <= i < |gaps| ==> IsForward(gaps[i]) && acc.end.instant <= gaps[i].start.instant)
      && (forall i, j :: 0 <= i < j < |gaps| ==> gaps[i].end.instant <= gaps[j].start.instant)
  {
    var gaps := [TimePeriod(acc.end, q.start)] + later;
    forall i, j | 0 <= i < j < |gaps| ensures gaps[i].end.instant <= gaps[j].start.instant {
      assert gaps[j] == later[j - 1];
      if i > 0 {
        assert gaps[i] == later[i - 1];
      }
    }
    forall i | 0 <= i < |gaps| ensures IsForward(gaps[i]) && acc.end.instant <= gaps[i].start.instant {
      if i > 0 {
        assert gaps[i] == later[i - 1];
      }
    }
  }

  /** Over forward periods sorted by start, the gaps of the intended sweep are sound. */
  lemma {:induction false} CoalescingSweepIsSound(acc: TimePeriod, rest: seq<TimePeriod>)
    requires SweepReady(acc, rest)
    ensures SoundGaps(acc, rest, CoalescingSweep(acc, rest))
    decreases |rest|
  {
    if rest != [] {
      if Overlaps(acc, rest[0]) || Abuts(acc, rest[0]) {
        SoundAfterJoin(acc, rest, CoalescingSweep(acc, rest));
        CoalescingSweepIsSound(Coalesce(acc, rest[0]).value, rest[1..]);
      } else {
        SoundAfterGap(acc, rest, CoalescingSweep(rest[0], rest[1..]));
        CoalescingSweepIsSound(rest[0], rest[1..]);
      }
    }
  }

  /** What the intended sweep is given: the collection's periods, forward and sorted by start. */
  lemma SortedForwardsAreReady(s: seq<TimePeriod>)
    requires s != []
    ensures var periods := Sorted(Asc, Forwards(s));
      |periods| == |s| && SweepReady(periods[0], periods[1..])
  {
    var forwards := Forwards(s);
    var periods := Sorted(Asc, forwards);
    SortedIsInOrder(Asc, forwards);
    SortedIsPermutation(Asc, forwards);
    SortedLength(Asc, forwards);
    forall j | 0 <= j < |periods| ensures !IsBackward(periods[j]) {
      assert periods[j] in multiset(forwards);
    }
    var rest := periods[1..];
    forall j | 0 <= j < |rest| ensures !IsBackward(rest[j]) && periods[0].start.instant <= rest[j].start.instant {
      assert rest[j] == periods[j + 1];
    }
    forall i, j | 0 <= i < j < |rest| ensures rest[i].start.instant <= rest[j].start.instant {
      assert rest[i] == periods[i + 1] && rest[j] == periods[j + 1];
    }
  }

  /** Every period of the collection, turned forward, is one of the periods the sweep visits. */
  lemma SortedForwardsHoldEvery(s: seq<TimePeriod>, p: TimePeriod)
    requires p in s
    ensures Forward(p) in Sorted(Asc, Forwards(s))
  {
    var k :| 0 <= k < |s| && s[k] == p;
    assert Forwards(s)[k] == Forward(p);
    SortedIsPermutation(Asc, Forwards(s));
    assert Forward(p) in multiset(Sorted(Asc, Forwards(s)));
  }

  /**
   * The intended `gaps()` emits at most one fewer gaps than periods, and its gaps run forward,
   * in ascending order, over time that no period of the collection covers.
   */
  lemma CoalescedGapsAreUncovered(ps: TimePeriods)
    ensures var gaps := CoalescedGapsOf(ps).periods;
      && (Count(ps) > 0 ==> |gaps| <= Count(ps) - 1)
      && (forall i :: 0 <= i < |gaps| ==> IsForward(gaps[i]))
      && (forall i, j :: 0 <= i < j < |gaps| ==> gaps[i].end.instant <= gaps[j].start.instant)
      && (forall i, p :: 0 <= i < |gaps| && p in ps.periods ==> !Overlaps(gaps[i], p))
  {
    if ps.periods != [] {
      var periods := Sorted(Asc, Forwards(ps.periods));
      SortedForwardsAreReady(ps.periods);
      var acc, rest := periods[0], periods[1..];
      CoalescingSweepIsSound(acc, rest);
      var gaps := CoalescingSweep(acc, rest);
      forall i, p | 0 <= i < |gaps| && p in ps.periods ensures !Overlaps(gaps[i], p) {
        SortedForwardsHoldEvery(ps.periods, p);
        var j :| 0 <= j < |periods| && periods[j] == Forward(p);
        if j > 0 {
          assert rest[j - 1] == Forward(p);
        }
      }
    }
  }

  /** The instant `t` lies between periods of the collection (after one starts, before another starts) and no period covers it. */
  ghost predicate UncoveredWithin(ps: TimePeriods, t: int)
  {
    && (exists p :: p in ps.periods && Lo(p) <= t)
    && (exists q :: q in ps.periods && t < Lo(q))
    && (forall p :: p in ps.periods ==> !(Lo(p) <= t < Hi(p)))
  }

  /** The instant `t` lies in one of the gaps. */
  ghost predicate InSomeGap(gaps: seq<TimePeriod>, t: int)
  {
    exists g :: g in gaps && g.start.instant <= t < g.end.instant
  }

  /**
   * Over forward periods sorted by start, an instant at or after the accumulator's end, before
   * the start of a later period and covered by none of them, lies in a gap of the intended sweep.
   */
  lemma {:induction false} CoalescingSweepIsComplete(acc: TimePeriod, rest: seq<TimePeriod>, t: int)
    requires SweepReady(acc, rest) && acc.end.instant <= t
    requires exists j :: 0 <= j < |rest| && t < rest[j].start.instant
    requires forall j :: 0 <= j < |rest| ==> !(rest[j].start.instant <= t < rest[j].end.instant)
    ensures InSomeGap(CoalescingSweep(acc, rest), t)
    decreases |rest|
  {
    var q, tail := rest[0], rest[1..];
    var j :| 0 <= j < |rest| && t < rest[j].start.instant;
    forall k | 0 <= k < |tail| ensures !(tail[k].start.instant <= t < tail[k].end.instant) {
      assert tail[k] == rest[k + 1];
    }
    if Overlaps(acc, q) || Abuts(acc, q) {
      var merged := Coalesce(acc, q).value;
      SoundAfterJoin(acc, rest, []);
      SpanOfForwardPeriods(acc, q);
      assert q.start.instant <= acc.end.instant;
      assert j > 0 && tail[j - 1] == rest[j];
      CoalescingSweepIsComplete(merged, tail, t);
    } else {
      ApartFromNext(acc, q);
      var gap := TimePeriod(acc.end, q.start);
      assert CoalescingSweep(acc, rest) == [gap] + CoalescingSweep(q, tail);
      if t < q.start.instant {
        assert gap in CoalescingSweep(acc, rest);
      } else {
        SoundAfterGap(acc, rest, []);
        assert j > 0 && tail[j - 1] == rest[j];
        CoalescingSweepIsComplete(q, tail, t);
        var g :| g in CoalescingSweep(q, tail) && g.start.instant <= t < g.end.instant;
        assert g in CoalescingSweep(acc, rest);
      }
    }
  }

  /** Every gap of the intended sweep starts where the accumulator or a period ends. */
  lemma {:induction false} CoalescingSweepGapsStartAtEnds(acc: TimePeriod, rest: seq<TimePeriod>)
    ensures forall g :: g in CoalescingSweep(acc, rest) ==>
      g.start.instant == acc.end.instant || exists j :: 0 <= j < |rest| && g.start.instant == rest[j].end.instant
    decreases |rest|
  {
    if rest != [] {
      var q, tail := rest[0], rest[1..];
      var next := if Overlaps(acc, q) || Abuts(acc, q) then Coalesce(acc, q).value else q;
      CoalescingSweepGapsStartAtEnds(next, tail);
      forall g | g in CoalescingSweep(next, tail)
        ensures g.start.instant == acc.end.instant || exists j :: 0 <= j < |rest| && g.start.instant == rest[j].end.instant
      {
        if g.start.instant != next.end.instant {
          var k :| 0 <= k < |tail| && g.start.instant == tail[k].end.instant;
          assert tail[k] == rest[k + 1];
        } else if next != q {
          assert next.end == acc.end || next.end == q.end;
        }
      }
      if !(Overlaps(acc, q) || Abuts(acc, q)) {
        assert CoalescingSweep(acc, rest) == [TimePeriod(acc.end, q.start)] + CoalescingSweep(q, tail);
      }
    }
  }

  /** Every gap of the intended sweep ends where a period starts. */
  lemma {:induction false} CoalescingSweepGapsEndAtStarts(acc: TimePeriod, rest: seq<TimePeriod>)
    ensures forall g :: g in CoalescingSweep(acc, rest) ==>
      exists j :: 0 <= j < |rest| && g.end.instant == rest[j].start.instant
    decreases |rest|
  {
    if rest != [] {
      var q, tail := rest[0], rest[1..];
      var next := if Overlaps(acc, q) || Abuts(acc, q) then Coalesce(acc, q).value else q;
      CoalescingSweepGapsEndAtStarts(next, tail);
      forall g | g in CoalescingSweep(next, tail)
        ensures exists j :: 0 <= j < |rest| && g.end.instant == rest[j].start.instant
      {
        var k :| 0 <= k < |tail| && g.end.instant == tail[k].start.instant;
        assert tail[k] == rest[k + 1];
      }
      if !(Overlaps(acc, q) || Abuts(acc, q)) {
        assert CoalescingSweep(acc, rest) == [TimePeriod(acc.end, q.start)] + CoalescingSweep(q, tail);
      }
    }
  }

  /** Each period the intended sweep visits spans what a period of the collection spans. */
  lemma SortedForwardsComeFromInput(s: seq<TimePeriod>, j: int)
    requires 0 <= j < |Sorted(Asc, Forwards(s))|
    ensures exists p :: (p in s && Lo(p) == Sorted(Asc, Forwards(s))[j].start.instant
      && Hi(p) == Sorted(Asc, Forwards(s))[j].end.instant)
  {
    var periods := Sorted(Asc, Forwards(s));
    SortedIsPermutation(Asc, Forwards(s));
    assert periods[j] in multiset(Forwards(s));
    var k :| 0 <= k < |s| && Forwards(s)[k] == periods[j];
    assert s[k] in s;
  }

  /** The first period the intended sweep visits starts no later than any period of the collection, and is not covered past its end. */
  lemma SweepStartsBefore(s: seq<TimePeriod>, t: int)
    requires exists p :: p in s && Lo(p) <= t
    requires forall p :: p in s ==> !(Lo(p) <= t < Hi(p))
    ensures var periods := Sorted(Asc, Forwards(s));
      periods != [] && periods[0].end.instant <= t
  {
    var periods := Sorted(Asc, Forwards(s));
    SortedForwardsAreReady(s);
    var first :| first in s && Lo(first) <= t;
    SortedForwardsHoldEvery(s, first);
    var i :| 0 <= i < |periods| && periods[i] == Forward(first);
    if i > 0 {
      assert periods[1..][i - 1] == periods[i];
    }
    SortedForwardsComeFromInput(s, 0);
  }

  /** Some period the intended sweep visits after its first starts later than `t`. */
  lemma SweepReachesPast(s: seq<TimePeriod>, t: int)
    requires s != []
    requires exists q :: q in s && t < Lo(q)
    requires Sorted(Asc, Forwards(s))[0].end.instant <= t
    ensures var periods := Sorted(Asc, Forwards(s));
      exists j :: 0 <= j < |periods[1..]| && t < periods[1..][j].start.instant
  {
    var periods := Sorted(Asc, Forwards(s));
    SortedForwardsAreReady(s);
    var later :| later in s && t < Lo(later);
    SortedForwardsHoldEvery(s, later);
    var j :| 0 <= j < |periods| && periods[j] == Forward(later);
    assert j > 0 && periods[1..][j - 1] == periods[j];
  }

  /**
   * The intended `gaps()` finds all gaps: every instant that lies between periods of the
   * collection and that no period covers is in one of the gaps.
   */
  lemma CoalescedGapsAreComplete(ps: TimePeriods, t: int)
    requires UncoveredWithin(ps, t)
    ensures InSomeGap(CoalescedGapsOf(ps).periods, t)
  {
    var s := ps.periods;
    var periods := Sorted(Asc, Forwards(s));
    SweepStartsBefore(s, t);
    SortedForwardsAreReady(s);
    SweepReachesPast(s, t);
    var rest := periods[1..];
    forall k | 0 <= k < |rest| ensures !(rest[k].start.instant <= t < rest[k].end.instant) {
      SortedForwardsComeFromInput(s, k + 1);
      assert rest[k] == periods[k + 1];
    }
    CoalescingSweepIsComplete(periods[0], rest, t);
  }

  /** A gap of the intended `gaps()` runs from the end of a period of the collection to the start of another. */
  lemma CoalescedGapLiesBetweenPeriods(ps: TimePeriods, g: TimePeriod)
    requires g in CoalescedGapsOf(ps).periods
    ensures exists p :: p in ps.periods && Hi(p) == g.start.instant
    ensures exists q :: q in ps.periods && Lo(q) == g.end.instant
  {
    var s := ps.periods;
    var periods := Sorted(Asc, Forwards(s));
    var acc, rest := periods[0], periods[1..];
    CoalescingSweepGapsStartAtEnds(acc, rest);
    CoalescingSweepGapsEndAtStarts(acc, rest);
    if g.start.instant == acc.end.instant {
      SortedForwardsComeFromInput(s, 0);
    } else {
      var k :| 0 <= k < |rest| && g.start.instant == rest[k].end.instant;
      SortedForwardsComeFromInput(s, k + 1);
      assert rest[k] == periods[k + 1];
    }
    var k :| 0 <= k < |rest| && g.end.instant == rest[k].start.instant;
    SortedForwardsComeFromInput(s, k + 1);
    assert rest[k] == periods[k + 1];
  }

  /** Every gap of the intended `gaps()` lies within the span of the collection, between the ends of its periods. */
  lemma CoalescedGapsLieBetweenPeriods(ps: TimePeriods)
    ensures forall g :: g in CoalescedGapsOf(ps).periods ==>
      (exists p :: p in ps.periods && Hi(p) == g.start.instant)
      && (exists q :: q in ps.periods && Lo(q) == g.end.instant)
  {
    forall g | g in CoalescedGapsOf(ps).periods
      ensures exists p :: p in ps.periods && Hi(p) == g.start.instant
      ensures exists q :: q in ps.periods && Lo(q) == g.end.instant
    {
      CoalescedGapLiesBetweenPeriods(ps, g);
    }
  }

  /** A gap of the intended `gaps()` runs forward and overlaps no period of the collection. */
  lemma CoalescedGapOverlapsNoPeriod(ps: TimePeriods, g: TimePeriod)
    requires g in CoalescedGapsOf(ps).periods
    ensures IsForward(g) && forall p :: p in ps.periods ==> !Overlaps(g, p)
  {
    var gaps := CoalescedGapsOf(ps).periods;
    CoalescedGapsAreUncovered(ps);
    var i :| 0 <= i < |gaps| && gaps[i] == g;
  }

  /** Every instant inside a gap of the intended `gaps()` lies between periods of the collection, covered by none of them. */
  lemma CoalescedGapsAreUncoveredTime(ps: TimePeriods, g: TimePeriod, t: int)
    requires g in CoalescedGapsOf(ps).periods && g.start.instant <= t < g.end.instant
    ensures UncoveredWithin(ps, t)
  {
    CoalescedGapLiesBetweenPeriods(ps, g);
    var p :| p in ps.periods && Hi(p) == g.start.instant;
    var q :| q in ps.periods && Lo(q) == g.end.instant;
    assert Lo(p) <= t && t < Lo(q);
    CoalescedGapOverlapsNoPeriod(ps, g);
  }

  /**
   * The intended `gaps()` reports exactly the uncovered time between the periods: an instant
   * is in a gap iff it lies between periods of the collection and no period covers it.
   */
  lemma CoalescedGapsAreExactlyTheUncoveredTime(ps: TimePeriods)
    ensures forall t :: InSomeGap(CoalescedGapsOf(ps).periods, t) <==> UncoveredWithin(ps, t)
  {
    var gaps := CoalescedGapsOf(ps).periods;
    forall t ensures InSomeGap(gaps, t) <==> UncoveredWithin(ps, t) {
      if InSomeGap(gaps, t) {
        var g :| g in gaps && g.start.instant <= t < g.end.instant;
        CoalescedGapsAreUncoveredTime(ps, g, t);
      } else if UncoveredWithin(ps, t) {
        CoalescedGapsAreComplete(ps, t);
      }
    }
  }

  /** Wherever the sweep as written succeeds, it emits the gaps of the intended sweep. */
  lemma {:induction false} SweepAgreesWhereItSucceeds(acc: TimePeriod, rest: seq<TimePeriod>)
    ensures Sweep(acc, rest).Ok? ==> Sweep(acc, rest).value == CoalescingSweep(acc, rest)
    decreases |rest|
  {
    if rest != [] {
      var q, tail := rest[0], rest[1..];
      if Overlaps(acc, q) || Abuts(acc, q) {
        if Periods.Merge(acc, q).Ok? {
          SweepAgreesWhereItSucceeds(Periods.Merge(acc, q).value, tail);
        }
      } else {
        SweepAgreesWhereItSucceeds(q, tail);
      }
    }
  }

  /**
   * On a collection of periods none of which runs backward, `gaps()` as written, when it does
   * not throw, returns the intended gaps, and so reports exactly the uncovered time.
   */
  lemma GapsOfForwardPeriodsAreExact(ps: TimePeriods)
    requires forall p :: p in ps.periods ==> !IsBackward(p)
    ensures GapsOf(ps).Ok? ==> GapsOf(ps).value == CoalescedGapsOf(ps)
    ensures GapsOf(ps).Ok? ==> forall t :: InSomeGap(GapsOf(ps).value.periods, t) <==> UncoveredWithin(ps, t)
  {
    var s := ps.periods;
    assert Forwards(s) == s;
    var sorted := Sorted(Asc, s);
    SortedIsPermutation(Asc, s);
    forall k | 0 <= k < |sorted| ensures Forward(sorted[k]) == sorted[k] {
      assert sorted[k] in multiset(s);
    }
    assert Forwards(sorted) == sorted;
    if sorted != [] {
      SweepAgreesWhereItSucceeds(sorted[0], sorted[1..]);
    }
    CoalescedGapsAreExactlyTheUncoveredTime(ps);
  }

  /** With abutting periods the intended sweep joins them and emits no gap. */
  lemma CoalescedGapsOfAbuttingPeriods()
    ensures CoalescedGapsOf(TimePeriods([Between(0, 10), Between(10, 20)])) == TimePeriods([])
  {
    var s := [Between(0, 10), Between(10, 20)];
    assert Forwards(s) == s;
    SortedKeepsOrderedInput(Asc, s);
    assert s[1..] == [Between(10, 20)];
    assert Abuts(Between(0, 10), Between(10, 20));
    assert CoalescingSweep(Between(0, 10), s[1..]) == CoalescingSweep(Span(Between(0, 10), Between(10, 20)), []);
    assert CoalescedGapsOf(TimePeriods(s)) == TimePeriods([]);
  }

  /** Sorting by start puts the period from 1 to 10 in front of the two it covers. */
  lemma SortedCoveredSpanInput()
    ensures Sorted(Asc, [Between(3, 4), Between(5, 6), Between(1, 10)])
      == [Between(1, 10), Between(3, 4), Between(5, 6)]
  {
    var wide := Between(1, 10);
    var t := [Between(3, 4), Between(5, 6), wide];
    var front := t[..2];
    assert front == [Between(3, 4), Between(5, 6)] && front[..1] == [Between(3, 4)];
    SortedKeepsOrderedInput(Asc, front);
    assert Insert(Asc, wide, front[..1]) == [wide, Between(3, 4)];
  }

  /** With the backward period turned forward before sorting, the covered span is no gap. */
  lemma CoalescedGapsOfCoveredSpan()
    ensures CoalescedGapsOf(TimePeriods([Between(3, 4), Between(5, 6), Between(10, 1)])) == TimePeriods([])
  {
    var wide := Between(1, 10);
    assert Forwards([Between(3, 4), Between(5, 6), Between(10, 1)]) == [Between(3, 4), Between(5, 6), wide];
    SortedCoveredSpanInput();
    var u := [wide, Between(3, 4), Between(5, 6)];
    assert u[1..] == [Between(3, 4), Between(5, 6)] && u[1..][1..] == [Between(5, 6)];
    assert Overlaps(wide, Between(3, 4)) && Coalesce(wide, Between(3, 4)).value == wide;
    assert Overlaps(wide, Between(5, 6)) && Coalesce(wide, Between(5, 6)).value == wide;
    assert CoalescingSweep(wide, u[1..][1..]) == CoalescingSweep(wide, []);
    assert CoalescingSweep(wide, u[1..]) == CoalescingSweep(wide, u[1..][1..]);
  }

  /** One step of the intended sweep, at position `k` of `periods`. */
  lemma CoalescingSweepStep(head: seq<TimePeriod>, gaps: seq<TimePeriod>, acc: TimePeriod, periods: seq<TimePeriod>, k: int)
    requires 0 <= k < |periods| && head == gaps + CoalescingSweep(acc, periods[k..])
    ensures Overlaps(acc, periods[k]) || Abuts(acc, periods[k]) ==>
      head == gaps + CoalescingSweep(Coalesce(acc, periods[k]).value, periods[k + 1..])
    ensures !Overlaps(acc, periods[k]) && !Abuts(acc, periods[k]) ==>
      head == (gaps + [TimePeriod(acc.end, periods[k].start)]) + CoalescingSweep(periods[k], periods[k + 1..])
  {
    assert periods[k..][0] == periods[k] && periods[k..][1..] == periods[k + 1..];
  }

  /**
   * `gaps()` as evidently intended: the same loop over the periods turned forward first and
   * then sorted, joining abutting periods instead of throwing.
   */
  method CoalescedGaps(ps: TimePeriods) returns (r: TimePeriods)
    ensures r == CoalescedGapsOf(ps)
    ensures Count(ps) > 0 ==> Count(r) <= Count(ps) - 1
    ensures forall i :: 0 <= i < Count(r) ==> IsForward(r.periods[i])
    ensures forall i, p :: 0 <= i < Count(r) && p in ps.periods ==> !Overlaps(r.periods[i], p)
    ensures forall t :: InSomeGap(r.periods, t) <==> UncoveredWithin(ps, t)
  {
    var sorted := SortBy(TimePeriods(Forwards(ps.periods)), Asc);
    var periods := sorted.periods;
    CoalescedGapsAreUncovered(ps);
    CoalescedGapsAreExactlyTheUncoveredTime(ps);
    if |periods| == 0 {
      return TimePeriods([]);
    }
    var gaps: seq<TimePeriod> := [];
    var totalPeriod := periods[0];
    var k := 1;
    assert [] + CoalescingSweep(totalPeriod, periods[k..]) == CoalescingSweep(totalPeriod, periods[k..]);
    while k < |periods|
      invariant 1 <= k <= |periods|
      invariant CoalescingSweep(periods[0], periods[1..]) == gaps + CoalescingSweep(totalPeriod, periods[k..])
    {
      var period := periods[k];
      CoalescingSweepStep(CoalescingSweep(periods[0], periods[1..]), gaps, totalPeriod, periods, k);
      if Overlaps(totalPeriod, period) || Abuts(totalPeriod, period) {
        var merged := Coalesce(totalPeriod, period);
        totalPeriod := merged.value;
      } else {
        gaps := gaps + [TimePeriod(totalPeriod.end, period.start)];
        totalPeriod := period;
      }
      k := k + 1;
    }
    assert gaps + [] == gaps;
    r := TimePeriods(gaps);
  }
}
