/** The ISO 8601 week number the board shows and filters by (`getWeekNumber`
    in the browser code): move a date to the Thursday of its Monday-based week
    and count the weeks of that Thursday's year up to it, as section 3.2.2 of
    ISO 8601:2004 defines the week calendar. */
module IsoWeek {
  import opened Calendar

  /** `Math.ceil(a / b)` for a positive divisor. */
  function CeilDiv(a: int, b: int): int
    requires b > 0
  {
    -((-a) / b)
  }

  /** `getUTCDay()`: 0 for Sunday, 1 for Monday, …, 6 for Saturday. */
  function JsDay(d: Date): int
    requires 1 <= d.month <= 12
  {
    (Days(d) + 1) % 7
  }

  /** `getUTCDay() || 7`: the ISO day of the week, Monday 1 up to Sunday 7. */
  function IsoDay(d: Date): (k: int)
    requires 1 <= d.month <= 12
    ensures k == Weekday(d) + 1
  {
    var j := JsDay(d);
    if j == 0 then 7 else j
  }

  /** Day index of the Monday that starts the date's week. */
  function MondayIndex(d: Date): int
    requires 1 <= d.month <= 12
  {
    Days(d) - Weekday(d)
  }

  /** The Thursday of the date's Monday-based week: the date moved by
      `4 - (getUTCDay() || 7)` days. */
  function ThursdayOf(d: Date): (t: Date)
    requires Valid(d)
    ensures Valid(t) && Days(t) == MondayIndex(d) + 3
  {
    DaysNonNegative(d);
    AddDays(d, 4 - IsoDay(d))
  }

  /** The week number: `ceil((days from January 1 of the Thursday's year to the
      Thursday + 1) / 7)`. Every date gets a week from 1 to 53. */
  function WeekNumber(d: Date): (w: int)
    requires Valid(d)
    ensures 1 <= w <= 53
  {
    var t := ThursdayOf(d);
    var yearStart := Date(t.year, 1, 1);
    WithinYear(t);
    CeilDiv(Days(t) - Days(yearStart) + 1, 7)
  }

  // ---------------------------------------------------------------------------
  // Reference definition

  /** The year the date's week is counted in: the year of its Thursday. */
  function WeekYear(d: Date): (y: int)
    requires Valid(d)
    ensures y >= 1
  {
    ThursdayOf(d).year
  }

  /** ISO 8601 week numbering stated directly: weeks run Monday to Sunday, and
      week 1 of a year is the week that holds its January 4. */
  function IsoWeekReference(d: Date): int
    requires Valid(d)
  {
    var jan4 := Date(WeekYear(d), 1, 4);
    (MondayIndex(d) - MondayIndex(jan4)) / 7 + 1
  }

  /** The arithmetic behind `WeekNumberIsIsoWeek`: with `m` a Monday's index
      and `j` the index of January 1 of its Thursday's year, counting from
      January 1 and counting Mondays from January 4's Monday agree. */
  lemma WeekArithmetic(m: int, j: int)
    requires m % 7 == 0 && m + 3 - j >= 0
    ensures CeilDiv(m + 3 - j + 1, 7) == (m - (j + 3 - (j + 3) % 7)) / 7 + 1
  {
    var r := (j + 3) % 7;
    var m4 := j + 3 - r;
    assert m4 % 7 == 0;
    var k := (m - m4) / 7;
    assert m - m4 == 7 * k;
    assert m + 3 - j == 7 * k + (6 - r);
    assert (m + 3 - j) / 7 == k;
  }

  /** January 1 and January 4 of a year, as day indices. */
  lemma YearStartDays(y: int)
    ensures Days(Date(y, 1, 1)) == DaysBeforeYear(y)
    ensures Days(Date(y, 1, 4)) == DaysBeforeYear(y) + 3
  {
  }

  lemma MondayMultiple(d: Date)
    requires 1 <= d.month <= 12
    ensures MondayIndex(d) % 7 == 0
  {
  }

  /** `WeekNumber` in terms of the Monday and the week year's start. */
  lemma WeekNumberFormula(d: Date)
    requires Valid(d)
    ensures var j := DaysBeforeYear(WeekYear(d));
      MondayIndex(d) + 3 - j >= 0 && WeekNumber(d) == CeilDiv(MondayIndex(d) + 3 - j + 1, 7)
  {
    var t := ThursdayOf(d);
    WithinYear(t);
    YearStartDays(t.year);
  }

  /** `IsoWeekReference` in terms of the Monday and the week year's start. */
  lemma ReferenceFormula(d: Date)
    requires Valid(d)
    ensures var j := DaysBeforeYear(WeekYear(d));
      IsoWeekReference(d) == (MondayIndex(d) - (j + 3 - (j + 3) % 7)) / 7 + 1
  {
    YearStartDays(WeekYear(d));
  }

  /** The Thursday-based computation is the ISO week number. */
  lemma WeekNumberIsIsoWeek(d: Date)
    requires Valid(d)
    ensures WeekNumber(d) == IsoWeekReference(d)
  {
    WeekNumberFormula(d);
    ReferenceFormula(d);
    MondayMultiple(d);
    WeekArithmetic(MondayIndex(d), DaysBeforeYear(WeekYear(d)));
  }

  lemma WeekdayShift(base: int, k: int)
    requires base % 7 == 0 && 0 <= k <= 6
    ensures (base + k) % 7 == k
  {
  }

  /** Dates whose weeks start on the same Monday share a week number. */
  lemma SameMondaySameNumber(a: Date, b: Date)
    requires Valid(a) && Valid(b) && MondayIndex(a) == MondayIndex(b)
    ensures WeekNumber(a) == WeekNumber(b)
  {
    DaysInjective(ThursdayOf(a), ThursdayOf(b));
  }

  lemma MondayArithmetic(n: int, k: int)
    requires n % 7 == 0 && 0 <= k <= 6
    ensures (n + k) - (n + k) % 7 == n
  {
    WeekdayShift(n, k);
  }

  /** The days up to six after a Monday start their week on it. */
  lemma MondayOfWeekday(monday: Date, k: int)
    requires Valid(monday) && Weekday(monday) == 0 && 0 <= k <= 6
    ensures Days(monday) >= 0 && MondayIndex(AddDays(monday, k)) == MondayIndex(monday)
  {
    DaysNonNegative(monday);
    var n := Days(monday);
    var d := AddDays(monday, k);
    assert Days(d) == n + k;
    assert MondayIndex(d) == (n + k) - (n + k) % 7;
    MondayArithmetic(n, k);
  }

  /** Every day of one Monday-to-Sunday week gets the week number of its Monday. */
  lemma SameWeekSameNumber(monday: Date, k: int)
    requires Valid(monday) && Weekday(monday) == 0 && 0 <= k <= 6
    ensures Days(monday) >= 0 && WeekNumber(AddDays(monday, k)) == WeekNumber(monday)
  {
    MondayOfWeekday(monday, k);
    SameMondaySameNumber(AddDays(monday, k), monday);
  }

  /** A year that starts on a Monday starts with week 1. */
  lemma MondayNewYear(y: int)
    requires y >= 1 && DaysBeforeYear(y) % 7 == 0
    ensures WeekNumber(Date(y, 1, 1)) == 1
  {
    var d := Date(y, 1, 1);
    YearStartDays(y);
    DaysInjective(ThursdayOf(d), Date(y, 1, 4));
    WeekNumberFormula(d);
  }

  /** A year that ends on a Sunday ends with week 52. */
  lemma SundayYearEnd(y: int)
    requires y >= 1 && Weekday(Date(y, 12, 31)) == 6
    ensures WeekNumber(Date(y, 12, 31)) == 52
  {
    var d := Date(y, 12, 31);
    MonthsFillYear(y);
    DaysInjective(ThursdayOf(d), Date(y, 12, 28));
    WeekNumberFormula(d);
    assert MondayIndex(d) + 3 - DaysBeforeYear(y) + 1 == DaysBeforeMonth(y, 12) + 28;
  }

  /** 2024-01-01, a Monday, starts week 1 of 2024. */
  lemma FirstMonday2024()
    ensures WeekNumber(Date(2024, 1, 1)) == 1
  {
    assert DaysBeforeYear(2024) == 738885;
    MondayNewYear(2024);
  }

  /** 2023-12-31, the Sunday before, closes week 52 of 2023. */
  lemma LastSunday2023()
    ensures WeekNumber(Date(2023, 12, 31)) == 52
  {
    assert DaysBeforeYear(2023) == 738520;
    assert DaysBeforeMonth(2023, 12) == 334;
    assert Days(Date(2023, 12, 31)) == 738884;
    SundayYearEnd(2023);
  }

  /** 1970-01-01, day 0 of JavaScript's clock, was a Thursday: the day index
      and `getUTCDay` agree. */
  lemma UnixEpochIsThursday()
    ensures JsDay(Date(1970, 1, 1)) == 4
  {
    assert Days(Date(1970, 1, 1)) == 719162;
  }

  // ---------------------------------------------------------------------------
  // The computation as the browser code writes it

  /** `Date.UTC(y, …)` takes a year from 0 to 99 as 1900 + y (MakeFullYear in
      ECMA-262), so `Date.UTC(d.getFullYear(), …)` does not round-trip
      those years. */
  function UtcYear(y: int): int {
    if 0 <= y <= 99 then 1900 + y else y
  }

  lemma UtcYearKeepsDate(d: Date)
    requires Valid(d)
    ensures Valid(Date(UtcYear(d.year), d.month, d.day))
  {
    if 0 <= d.year <= 99 {
      assert IsLeap(UtcYear(d.year)) == IsLeap(d.year);
    }
  }

  /** `getWeekNumber` exactly as written: both `Date.UTC` calls go through the
      two-digit-year rule. */
  function WeekNumberAsWritten(d: Date): int
    requires Valid(d)
  {
    UtcYearKeepsDate(d);
    var d0 := Date(UtcYear(d.year), d.month, d.day);
    DaysNonNegative(d0);
    var t := AddDays(d0, 4 - IsoDay(d0));
    var yearStart := Date(UtcYear(t.year), 1, 1);
    CeilDiv(Days(t) - Days(yearStart) + 1, 7)
  }

  /** From year 101 on, the code as written computes the ISO week. */
  lemma AsWrittenAgreesFrom101(d: Date)
    requires Valid(d) && d.year >= 101
    ensures WeekNumberAsWritten(d) == WeekNumber(d)
  {
    var t := ThursdayOf(d);
    WithinYear(d);
    WithinYear(t);
    YearStep(100);
    if t.year < 100 {
      YearStartsGrow(t.year, 100);
    }
  }

  /** 0100-01-01 is a Friday; its Thursday is 0099-12-31, whose year start the
      code computes as 1999-01-01, so the code answers a negative week where
      ISO 8601 gives week 53 of year 99. */
  lemma AsWrittenNegativeWeek()
    ensures WeekNumberAsWritten(Date(100, 1, 1)) == -99085
    ensures WeekNumber(Date(100, 1, 1)) == 53
  {
    HundredAsWritten();
    HundredIso();
  }

  lemma HundredDays()
    ensures Days(Date(100, 1, 1)) == 36159
    ensures Days(Date(99, 12, 31)) == 36158
    ensures DaysBeforeYear(99) == 35794
  {
    assert DaysBeforeYear(100) == 36159;
    assert DaysBeforeMonth(99, 12) == 334;
  }

  lemma HundredAsWritten()
    ensures WeekNumberAsWritten(Date(100, 1, 1)) == -99085
  {
    var d := Date(100, 1, 1);
    HundredDays();
    assert IsoDay(d) == 5;
    DaysInjective(AddDays(d, -1), Date(99, 12, 31));
    assert DaysBeforeYear(1999) == 729754;
    assert CeilDiv(36158 - 729754 + 1, 7) == -99085;
  }

  lemma HundredIso()
    ensures WeekNumber(Date(100, 1, 1)) == 53
  {
    var d := Date(100, 1, 1);
    HundredDays();
    DaysInjective(ThursdayOf(d), Date(99, 12, 31));
    WeekNumberFormula(d);
  }
}
