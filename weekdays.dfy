/**
 * Aeon's `WeekDay`: a day of the week as a validated number, Monday = 1 through Sunday = 7,
 * with its English name and three-letter abbreviation.
 */
module WeekDays {
  import opened Wrappers

  type WeekDayNumber = n: int | 1 <= n <= 7 witness 1

  datatype WeekDay = WeekDay(number: WeekDayNumber)

  /** The constructor: only the numbers 1 to 7 make a week day; any other fails its assertion. */
  function Create(n: int): (r: Result<WeekDay>)
    ensures r.Ok? <==> 1 <= n <= 7
    ensures r.Ok? ==> r.value.number == n
    ensures r.Err? ==> r.error == InvalidArgument
  {
    if 1 <= n <= 7 then Ok(WeekDay(n)) else Err(InvalidArgument)
  }

  /** The named factories: each is the constructor applied to its day's number. */
  function Monday(): (d: WeekDay)
    ensures Create(1) == Ok(d) && Name(d) == "Monday"
  {
    Create(1).value
  }

  function Tuesday(): (d: WeekDay)
    ensures Create(2) == Ok(d) && Name(d) == "Tuesday"
  {
    Create(2).value
  }

  function Wednesday(): (d: WeekDay)
    ensures Create(3) == Ok(d) && Name(d) == "Wednesday"
  {
    Create(3).value
  }

  function Thursday(): (d: WeekDay)
    ensures Create(4) == Ok(d) && Name(d) == "Thursday"
  {
    Create(4).value
  }

  function Friday(): (d: WeekDay)
    ensures Create(5) == Ok(d) && Name(d) == "Friday"
  {
    Create(5).value
  }

  function Saturday(): (d: WeekDay)
    ensures Create(6) == Ok(d) && Name(d) == "Saturday"
  {
    Create(6).value
  }

  function Sunday(): (d: WeekDay)
    ensures Create(7) == Ok(d) && Name(d) == "Sunday"
  {
    Create(7).value
  }

  /** The factories, Monday first, name the seven days in order, each once. */
  lemma FactoriesFollowTheWeek()
    ensures var week := [Monday(), Tuesday(), Wednesday(), Thursday(), Friday(), Saturday(), Sunday()];
      (forall i :: 0 <= i < |week| ==> week[i].number == i + 1)
      && (forall d: WeekDay :: d in week)
  {
    var week := [Monday(), Tuesday(), Wednesday(), Thursday(), Friday(), Saturday(), Sunday()];
    forall d: WeekDay ensures d in week {
      assert d == week[d.number - 1];
    }
  }

  const Names: map<int, string> := map[
    1 := "Monday", 2 := "Tuesday", 3 := "Wednesday", 4 := "Thursday",
    5 := "Friday", 6 := "Saturday", 7 := "Sunday"]

  const ShortNames: map<int, string> := map[
    1 := "Mon", 2 := "Tue", 3 := "Wed", 4 := "Thu", 5 := "Fri", 6 := "Sat", 7 := "Sun"]

  /** Both lookup tables are keyed by exactly the valid week-day numbers. */
  lemma NameTablesCoverTheWeek(n: int)
    ensures n in Names <==> 1 <= n <= 7
    ensures n in ShortNames <==> 1 <= n <= 7
  {
  }

  function Name(d: WeekDay): (r: string)
    ensures |r| >= 6 && r[|r| - 3..] == "day"
  {
    Names[d.number]
  }

  function ShortName(d: WeekDay): (r: string)
    ensures |r| == 3
  {
    ShortNames[d.number]
  }

  /** The short name is the full name cut to its first three letters. */
  lemma ShortNameAbbreviatesName(d: WeekDay)
    ensures ShortName(d) == Name(d)[..3]
  {
    match d.number
    case 1 => assert Name(d) == "Monday";
    case 2 => assert Name(d) == "Tuesday";
    case 3 => assert Name(d) == "Wednesday";
    case 4 => assert Name(d) == "Thursday";
    case 5 => assert Name(d) == "Friday";
    case 6 => assert Name(d) == "Saturday";
    case 7 => assert Name(d) == "Sunday";
  }

  /** The short name as a function of the day: `Mon` for 1 through `Sun` for 7. */
  lemma ShortNameOf(d: WeekDay)
    ensures d.number == 1 <==> ShortName(d) == "Mon"
    ensures d.number == 2 <==> ShortName(d) == "Tue"
    ensures d.number == 3 <==> ShortName(d) == "Wed"
    ensures d.number == 4 <==> ShortName(d) == "Thu"
    ensures d.number == 5 <==> ShortName(d) == "Fri"
    ensures d.number == 6 <==> ShortName(d) == "Sat"
    ensures d.number == 7 <==> ShortName(d) == "Sun"
  {
    var s := ShortName(d);
    assert s[0] == 'M' <==> d.number == 1;
    assert s[0] == 'W' <==> d.number == 3;
    assert s[0] == 'F' <==> d.number == 5;
    assert s[1] == 'u' && s[0] == 'T' <==> d.number == 2;
    assert s[1] == 'h' <==> d.number == 4;
    assert s[1] == 'a' <==> d.number == 6;
    assert s[1] == 'u' && s[0] == 'S' <==> d.number == 7;
  }

  /** No two days share a name, nor a short name. */
  lemma NamesTellDaysApart(a: WeekDay, b: WeekDay)
    ensures Name(a) == Name(b) <==> a == b
    ensures ShortName(a) == ShortName(b) <==> a == b
  {
    ShortNameOf(a);
    ShortNameOf(b);
    ShortNameAbbreviatesName(a);
    ShortNameAbbreviatesName(b);
  }

  /** `isWeekend`: the number is one of 6 and 7. */
  function IsWeekend(d: WeekDay): (r: bool)
    ensures r <==> d == Saturday() || d == Sunday()
    ensures r <==> d.number > Friday().number
  {
    d.number in [6, 7]
  }

  /** `equals` compares the numbers, which is value equality of week days. */
  function Equals(a: WeekDay, b: WeekDay): (r: bool)
    ensures r <==> a == b
    ensures r <==> Name(a) == Name(b)
  {
    NamesTellDaysApart(a, b);
    a.number == b.number
  }

  lemma EqualsIsAnEquivalence(a: WeekDay, b: WeekDay, c: WeekDay)
    ensures Equals(a, a)
    ensures Equals(a, b) <==> Equals(b, a)
    ensures Equals(a, b) && Equals(b, c) ==> Equals(a, c)
  {
  }
}
