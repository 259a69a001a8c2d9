/**
 * Proleptic Gregorian calendar arithmetic on UTC day numbers (days since
 * 1970-01-01, the day of instant 0), and the ISO 8601 week date of section
 * 4.1.4 of ISO 8601:2004: weeks start on Monday and week 1 of a year is
 * the week that holds the year's first Thursday.
 */
module Calendar {

  const MsPerDay := 86400000

  /** The UTC day an instant (in milliseconds) falls on. */
  function DayOf(ms: int): int {
    ms / MsPerDay
  }

  predicate IsLeap(y: int) {
    (y % 4 == 0 && y % 100 != 0) || y % 400 == 0
  }

  function YearLength(y: int): int {
    if IsLeap(y) then 366 else 365
  }

  /** The day number of January 1st of year `y`. */
  function Jan1(y: int): int {
    var p := y - 1;
    365 * p + p / 4 - p / 100 + p / 400 - 719162
  }

  lemma Jan1Step(y: int)
    ensures Jan1(y + 1) == Jan1(y) + YearLength(y)
  {
    var p := y - 1;
    assert (p + 1) / 4 == p / 4 + (if y % 4 == 0 then 1 else 0);
    assert (p + 1) / 100 == p / 100 + (if y % 100 == 0 then 1 else 0);
    assert (p + 1) / 400 == p / 400 + (if y % 400 == 0 then 1 else 0);
  }

  /** `getUTCDay()`: 0 for Sunday, 1 for Monday, ..., 6 for Saturday
      (1970-01-01 was a Thursday). */
  function WeekDay(n: int): (d: int)
    ensures 0 <= d < 7
  {
    (n + 4) % 7
  }

  function YearUp(n: int, y: int): (r: int)
    requires Jan1(y) <= n
    ensures Jan1(r) <= n < Jan1(r + 1)
    decreases n - Jan1(y)
  {
    Jan1Step(y);
    if n < Jan1(y + 1) then y else YearUp(n, y + 1)
  }

  function YearDown(n: int, y: int): (r: int)
    requires n < Jan1(y + 1)
    ensures Jan1(r) <= n < Jan1(r + 1)
    decreases Jan1(y + 1) - n
  {
    Jan1Step(y);
    if Jan1(y) <= n then y else YearDown(n, y - 1)
  }

  /** `getUTCFullYear()` of a day: the year whose days it lies between. */
  function YearOf(n: int): (y: int)
    ensures Jan1(y) <= n < Jan1(y + 1)
  {
    if 0 <= n then YearUp(n, 1970) else YearDown(n, 1969)
  }

  /** `Jan1` is strictly increasing, so a day belongs to exactly one year. */
  lemma {:induction false} Jan1Monotone(a: int, b: int)
    requires a < b
    ensures Jan1(a) + 365 <= Jan1(b)
    decreases b - a
  {
    Jan1Step(a);
    if a + 1 < b {
      Jan1Monotone(a + 1, b);
    }
  }

  lemma YearOfUnique(n: int, y: int)
    requires Jan1(y) <= n < Jan1(y + 1)
    ensures YearOf(n) == y
  {
    var r := YearOf(n);
    if r < y {
      Jan1Monotone(r, y);
      if r + 1 < y { Jan1Monotone(r + 1, y); }
    } else if y < r {
      Jan1Monotone(y, r);
      if y + 1 < r { Jan1Monotone(y + 1, r); }
    }
  }

  /** `Math.ceil(a / b)` for a positive `b`. */
  function CeilDiv(a: int, b: int): int
    requires b > 0
  {
    -((-a) / b)
  }

  /** `getUTCDay() || 7`: Monday 1, ..., Sunday 7. */
  function IsoDayNum(n: int): (d: int)
    ensures 1 <= d <= 7
  {
    if WeekDay(n) == 0 then 7 else WeekDay(n)
  }

  /** The Thursday of the Monday-to-Sunday week `n` lies in. */
  function ThursdayOf(n: int): int {
    n + 4 - IsoDayNum(n)
  }

  /** `getISOWeekYear`: the year of the week's Thursday. */
  function IsoWeekYear(n: int): int {
    YearOf(ThursdayOf(n))
  }

  /** `getISOWeek`: one more than the number of whole days from January 1st
      of the ISO year to the Thursday, divided by 7 and rounded up. */
  function IsoWeek(n: int): int {
    var d := ThursdayOf(n);
    CeilDiv(d - Jan1(YearOf(d)) + 1, 7)
  }

  datatype WeekKey = WeekKey(year: int, week: int)

  function IsoKey(n: int): WeekKey {
    WeekKey(IsoWeekYear(n), IsoWeek(n))
  }

  /** The Thursday is a Thursday, in the same Monday-to-Sunday week as `n`. */
  lemma ThursdayFacts(n: int)
    ensures WeekDay(ThursdayOf(n)) == 4
    ensures n - 3 <= ThursdayOf(n) <= n + 3
    ensures ThursdayOf(n) - 3 <= n
  {
  }

  /** Weeks are numbered 1 to 53, and week `w` is the one whose Thursday is
      the `w`-th Thursday of the ISO year. */
  lemma IsoWeekRange(n: int)
    ensures 1 <= IsoWeek(n) <= 53
    ensures var d := ThursdayOf(n);
            IsoWeek(n) == (d - Jan1(YearOf(d))) / 7 + 1
  {
    var d := ThursdayOf(n);
    var y := YearOf(d);
    assert 0 <= d - Jan1(y) < YearLength(y) by { Jan1Step(y); }
  }

  /** Week 1 is the week holding the ISO year's first Thursday. */
  lemma WeekOneHoldsFirstThursday(n: int)
    ensures IsoWeek(n) == 1 <==> ThursdayOf(n) - Jan1(IsoWeekYear(n)) < 7
  {
    IsoWeekRange(n);
  }

  /** Two days of the same Monday-to-Sunday week have the same key. */
  lemma SameWeekSameKey(n: int, m: int)
    requires ThursdayOf(n) == ThursdayOf(m)
    ensures IsoKey(n) == IsoKey(m)
  {
  }

  /** Days of different Monday-to-Sunday weeks get different keys. */
  lemma DistinctWeeksDistinctKeys(n: int, m: int)
    requires ThursdayOf(n) != ThursdayOf(m)
    ensures IsoKey(n) != IsoKey(m)
  {
    var a, b := ThursdayOf(n), ThursdayOf(m);
    ThursdayFacts(n);
    ThursdayFacts(m);
    if YearOf(a) == YearOf(b) {
      IsoWeekRange(n);
      IsoWeekRange(m);
      MultiplesOfSevenApart(a, b, Jan1(YearOf(a)));
    }
  }

  lemma MultiplesOfSevenApart(a: int, b: int, j: int)
    requires (a + 4) % 7 == 4 && (b + 4) % 7 == 4 && a != b
    ensures (a - j) / 7 != (b - j) / 7
  {
    var x, y := a / 7, b / 7;
    assert a == 7 * x && b == 7 * y;
    var z := (-j) / 7;
    var w := (-j) % 7;
    assert a - j == 7 * (x + z) + w;
    assert b - j == 7 * (y + z) + w;
  }

  /** The key of a day names its week: two days share a key exactly when
      they share a Monday-to-Sunday week. */
  lemma KeyIffSameWeek(n: int, m: int)
    ensures IsoKey(n) == IsoKey(m) <==> ThursdayOf(n) == ThursdayOf(m)
  {
    if ThursdayOf(n) != ThursdayOf(m) {
      DistinctWeeksDistinctKeys(n, m);
    }
  }

  /** Days a non-zero whole number of weeks apart have different keys. */
  lemma WeeksApartDiffer(n: int, m: int, k: int)
    requires k != 0 && m == n - 7 * k
    ensures IsoKey(n) != IsoKey(m)
  {
    assert WeekDay(m) == WeekDay(n);
    DistinctWeeksDistinctKeys(n, m);
  }

  /** A civil date (month 1 to 12) as a UTC day number: `Date.UTC(y, m - 1,
      d)` divided by the length of a day. */
  function DaysBeforeMonth(y: int, m: int): int
    requires 1 <= m <= 12
  {
    var cum := [0, 31, 59, 90, 120, 151, 181, 212, 243, 273, 304, 334];
    cum[m - 1] + (if m > 2 && IsLeap(y) then 1 else 0)
  }

  function DayFromCivil(y: int, m: int, d: int): int
    requires 1 <= m <= 12
  {
    Jan1(y) + DaysBeforeMonth(y, m) + d - 1
  }

  /** Known dates: 1970-01-01 is day 0, a Thursday; 2021-01-03 (a Sunday)
      belongs to week 53 of 2020; 2024-12-30 (a Monday) to week 1 of 2025. */
  lemma Examples()
    ensures DayFromCivil(1970, 1, 1) == 0 && WeekDay(0) == 4
    ensures IsoKey(DayFromCivil(2021, 1, 3)) == WeekKey(2020, 53)
    ensures IsoKey(DayFromCivil(2024, 12, 30)) == WeekKey(2025, 1)
    ensures IsoKey(DayFromCivil(2024, 1, 1)) == WeekKey(2024, 1)
  {
    var a := DayFromCivil(2021, 1, 3);
    YearOfUnique(ThursdayOf(a), 2020);
    var b := DayFromCivil(2024, 12, 30);
    YearOfUnique(ThursdayOf(b), 2025);
    var c := DayFromCivil(2024, 1, 1);
    YearOfUnique(ThursdayOf(c), 2024);
  }
}
