/** Calendar dates of the proleptic Gregorian calendar: validity, a day index
    counted from 0001-01-01, stepping by days (what JavaScript's `setUTCDate`
    and Python's `timedelta(days=…)` do), the chronological order, and the
    `YYYY-MM-DD` text form in which both the API and the browser carry dates. */
module Calendar {
  import opened Strings

  datatype Date = Date(year: int, month: int, day: int)

  predicate IsLeap(y: int) {
    y % 4 == 0 && (y % 100 != 0 || y % 400 == 0)
  }

  function YearLength(y: int): int {
    if IsLeap(y) then 366 else 365
  }

  function DaysInMonth(y: int, m: int): int
    requires 1 <= m <= 12
  {
    if m == 2 then (if IsLeap(y) then 29 else 28)
    else if m == 4 || m == 6 || m == 9 || m == 11 then 30
    else 31
  }

  /** A real calendar day of year 1 or later (Python's `date` starts at year 1). */
  predicate Valid(d: Date) {
    d.year >= 1 && 1 <= d.month <= 12 && 1 <= d.day <= DaysInMonth(d.year, d.month)
  }

  /** Number of days from 0001-01-01 to January 1 of year `y`. */
  function DaysBeforeYear(y: int): int {
    var p := y - 1;
    365 * p + p / 4 - p / 100 + p / 400
  }

  /** Number of days of year `y` before the first day of month `m`. */
  function DaysBeforeMonth(y: int, m: int): int
    requires 1 <= m <= 12
  {
    if m == 1 then 0 else DaysBeforeMonth(y, m - 1) + DaysInMonth(y, m - 1)
  }

  /** Day index of a date: 0 for 0001-01-01, one more for each following day. */
  function Days(d: Date): int
    requires 1 <= d.month <= 12
  {
    DaysBeforeYear(d.year) + DaysBeforeMonth(d.year, d.month) + d.day - 1
  }

  /** Index of the day within its week: 0 for Monday up to 6 for Sunday
      (0001-01-01 was a Monday). */
  function Weekday(d: Date): int
    requires 1 <= d.month <= 12
  {
    Days(d) % 7
  }

  /** Chronological order; it is also the order of the `YYYY-MM-DD` texts
      (see `IsoStringOrder`). */
  predicate Before(a: Date, b: Date) {
    a.year < b.year || (a.year == b.year && (a.month < b.month || (a.month == b.month && a.day < b.day)))
  }

  // ---------------------------------------------------------------------------
  // Arithmetic facts about the day index

  /** One more year adds that year's length. */
  lemma YearStep(y: int)
    ensures DaysBeforeYear(y + 1) == DaysBeforeYear(y) + YearLength(y)
  {
    var p := y - 1;
    StepBy4(p);
    StepBy100(p);
    StepBy400(p);
    if y % 400 == 0 {
      var w := y / 400;
      assert y == 100 * (4 * w) && y == 4 * (100 * w);
    } else if y % 100 == 0 {
      var w := y / 100;
      assert y == 4 * (25 * w);
    }
  }

  /** Counting the multiples of 4, 100 and 400 up to `p + 1` adds one
      exactly when `p + 1` is one. */
  lemma StepBy4(p: int)
    ensures (p + 1) / 4 == p / 4 + (if (p + 1) % 4 == 0 then 1 else 0)
  {
  }

  lemma StepBy100(p: int)
    ensures (p + 1) / 100 == p / 100 + (if (p + 1) % 100 == 0 then 1 else 0)
  {
  }

  lemma StepBy400(p: int)
    ensures (p + 1) / 400 == p / 400 + (if (p + 1) % 400 == 0 then 1 else 0)
  {
  }

  /** The twelve months fill the year exactly. */
  lemma MonthsFillYear(y: int)
    ensures DaysBeforeMonth(y, 12) + DaysInMonth(y, 12) == YearLength(y)
  {
    var f := if IsLeap(y) then 1 else 0;
    assert DaysBeforeMonth(y, 2) == 31;
    assert DaysBeforeMonth(y, 3) == 59 + f;
    assert DaysBeforeMonth(y, 4) == 90 + f;
    assert DaysBeforeMonth(y, 5) == 120 + f;
    assert DaysBeforeMonth(y, 6) == 151 + f;
    assert DaysBeforeMonth(y, 7) == 181 + f;
    assert DaysBeforeMonth(y, 8) == 212 + f;
    assert DaysBeforeMonth(y, 9) == 243 + f;
    assert DaysBeforeMonth(y, 10) == 273 + f;
    assert DaysBeforeMonth(y, 11) == 304 + f;
    assert DaysBeforeMonth(y, 12) == 334 + f;
  }

  /** Months start later the later they come, and each ends before the next begins. */
  lemma {:induction false} MonthStartsGrow(y: int, m: int, n: int)
    requires 1 <= m < n <= 12
    ensures DaysBeforeMonth(y, m) + DaysInMonth(y, m) <= DaysBeforeMonth(y, n)
    decreases n - m
  {
    if m + 1 < n {
      MonthStartsGrow(y, m + 1, n);
    }
  }

  /** A date's day index lies within its own year. */
  lemma WithinYear(d: Date)
    requires Valid(d)
    ensures DaysBeforeYear(d.year) <= Days(d) < DaysBeforeYear(d.year + 1)
  {
    YearStep(d.year);
    MonthsFillYear(d.year);
    if d.month < 12 {
      MonthStartsGrow(d.year, d.month, 12);
    }
    if d.month > 1 {
      MonthStartsGrow(d.year, 1, d.month);
    }
  }

  /** Later years start later. */
  lemma {:induction false} YearStartsGrow(a: int, b: int)
    requires a < b
    ensures DaysBeforeYear(a + 1) <= DaysBeforeYear(b)
    decreases b - a
  {
    if a + 1 < b {
      YearStartsGrow(a + 1, b);
      YearStep(a + 1);
    }
  }

  lemma YearStartNonNegative(y: int)
    requires y >= 1
    ensures DaysBeforeYear(y) >= 0
  {
    var p := y - 1;
    assert p / 100 <= p / 4;
  }

  lemma DaysNonNegative(d: Date)
    requires Valid(d)
    ensures Days(d) >= 0
  {
    YearStartNonNegative(d.year);
    WithinYear(d);
  }

  /** The day index respects the chronological order. */
  lemma DaysOrder(a: Date, b: Date)
    requires Valid(a) && Valid(b)
    ensures Before(a, b) <==> Days(a) < Days(b)
    ensures a == b <==> Days(a) == Days(b)
  {
    WithinYear(a);
    WithinYear(b);
    if a.year < b.year {
      YearStartsGrow(a.year, b.year);
    } else if b.year < a.year {
      YearStartsGrow(b.year, a.year);
    } else if a.month < b.month {
      MonthStartsGrow(a.year, a.month, b.month);
    } else if b.month < a.month {
      MonthStartsGrow(a.year, b.month, a.month);
    }
  }

  /** Distinct dates have distinct day indexes. */
  lemma DaysInjective(a: Date, b: Date)
    requires Valid(a) && Valid(b) && Days(a) == Days(b)
    ensures a == b
  {
    DaysOrder(a, b);
  }

  // ---------------------------------------------------------------------------
  // Stepping by days

  /** The following day. */
  function NextDay(d: Date): (r: Date)
    requires Valid(d)
    ensures Valid(r) && Days(r) == Days(d) + 1
  {
    if d.day < DaysInMonth(d.year, d.month) then
      Date(d.year, d.month, d.day + 1)
    else if d.month < 12 then
      Date(d.year, d.month + 1, 1)
    else
      YearStep(d.year);
      MonthsFillYear(d.year);
      Date(d.year + 1, 1, 1)
  }

  /** The preceding day; 0001-01-01 has none. */
  function PrevDay(d: Date): (r: Date)
    requires Valid(d) && Days(d) > 0
    ensures Valid(r) && Days(r) == Days(d) - 1
  {
    if d.day > 1 then
      Date(d.year, d.month, d.day - 1)
    else if d.month > 1 then
      Date(d.year, d.month - 1, DaysInMonth(d.year, d.month - 1))
    else
      YearStep(d.year - 1);
      MonthsFillYear(d.year - 1);
      if d.year == 1 then
        YearStartNonNegative(1);
        assert false;
        d
      else
        Date(d.year - 1, 12, 31)
  }

  /** The date `n` days after `d` (before it when `n` is negative), as
      `setUTCDate(getUTCDate() + n)` or `d + timedelta(days=n)` compute it. */
  function AddDays(d: Date, n: int): (r: Date)
    requires Valid(d) && Days(d) + n >= 0
    ensures Valid(r) && Days(r) == Days(d) + n
    decreases if n < 0 then -n else n
  {
    if n == 0 then d
    else if n > 0 then AddDays(NextDay(d), n - 1)
    else AddDays(PrevDay(d), n + 1)
  }

  // ---------------------------------------------------------------------------
  // The `YYYY-MM-DD` text form

  function Pow10(w: nat): nat {
    if w == 0 then 1 else 10 * Pow10(w - 1)
  }

  function DigitChar(k: int): char
    requires 0 <= k < 10
  {
    (48 + k) as char
  }

  /** `n` written with exactly `w` decimal digits, zero-padded on the left. */
  function Digits(n: nat, w: nat): (r: string)
    ensures |r| == w
    ensures forall i :: 0 <= i < |r| ==> '0' <= r[i] <= '9'
  {
    if w == 0 then "" else Digits(n / 10, w - 1) + [DigitChar(n % 10)]
  }

  /** Fixed-width digit strings compare as the numbers they spell. */
  lemma {:induction false} DigitsOrder(n: nat, m: nat, w: nat)
    requires n < Pow10(w) && m < Pow10(w)
    ensures LexLess(Digits(n, w), Digits(m, w)) <==> n < m
    ensures Digits(n, w) == Digits(m, w) <==> n == m
  {
    if w == 0 {
      assert n == 0 && m == 0;
    } else {
      var a, b := Digits(n / 10, w - 1), Digits(m / 10, w - 1);
      var c, e := [DigitChar(n % 10)], [DigitChar(m % 10)];
      DigitsOrder(n / 10, m / 10, w - 1);
      LexLessConcat(a, c, b, e);
      assert LexLess(c, e) <==> n % 10 < m % 10;
      if a + c == b + e {
        assert a == (a + c)[..w - 1] && b == (b + e)[..w - 1];
        assert c[0] == (a + c)[w - 1] && e[0] == (b + e)[w - 1];
      }
      assert n == 10 * (n / 10) + n % 10;
      assert m == 10 * (m / 10) + m % 10;
    }
  }

  /** Dates the text form covers: four-digit years. */
  predicate Printable(d: Date) {
    Valid(d) && d.year <= 9999
  }

  /** A value of Python's `datetime.date` (years 1 to 9999), which is what a
      `Date` column holds and what the API sends as `YYYY-MM-DD`. */
  type PyDate = d: Date | Printable(d) witness Date(1970, 1, 1)

  /** `date.isoformat()` / the value of an `<input type="date">`. */
  function IsoString(d: Date): (r: string)
    requires Printable(d)
    ensures |r| == 10
  {
    Digits(d.year, 4) + ("-" + (Digits(d.month, 2) + ("-" + Digits(d.day, 2))))
  }

  /** The text form is a `-`-joined list of three digit fields. */
  lemma IsoStringFields(d: Date)
    requires Printable(d)
    ensures IsoString(d) == Join([Digits(d.year, 4), Digits(d.month, 2), Digits(d.day, 2)], "-")
    ensures forall i :: 0 <= i < 3 ==> '-' !in [Digits(d.year, 4), Digits(d.month, 2), Digits(d.day, 2)][i]
  {
    var y, m, dd := Digits(d.year, 4), Digits(d.month, 2), Digits(d.day, 2);
    assert Join([y, m, dd], "-") == y + "-" + Join([m, dd], "-");
    assert Join([m, dd], "-") == m + "-" + dd;
  }

  /** Two texts made of a head, a separator and a tail, with heads of equal
      width, compare by head and then by tail. */
  lemma HeadThenTail(sep: string, h: string, t: string, h': string, t': string)
    requires |h| == |h'|
    ensures LexLess(h + (sep + t), h' + (sep + t')) <==> LexLess(h, h') || (h == h' && LexLess(t, t'))
  {
    LexLessIrreflexive(sep);
    LexLessConcat(sep, t, sep, t');
    LexLessConcat(h, sep + t, h', sep + t');
  }

  /** Texts made of three fields of equal widths with the same separator
      compare field by field. */
  lemma FieldsOrder(sep: string, ya: string, ma: string, da: string, yb: string, mb: string, db: string)
    requires |ya| == |yb| && |ma| == |mb|
    ensures LexLess(ya + (sep + (ma + (sep + da))), yb + (sep + (mb + (sep + db))))
        <==> LexLess(ya, yb) || (ya == yb && (LexLess(ma, mb) || (ma == mb && LexLess(da, db))))
  {
    var ta, tb := ma + (sep + da), mb + (sep + db);
    HeadThenTail(sep, ma, da, mb, db);
    assert LexLess(ta, tb) <==> LexLess(ma, mb) || (ma == mb && LexLess(da, db));
    HeadThenTail(sep, ya, ta, yb, tb);
  }

  /** Equal texts of that shape have equal fields. */
  lemma FieldsEqual(sep: string, ya: string, ma: string, da: string, yb: string, mb: string, db: string)
    requires |sep| == 1 && |ya| == |yb| == 4 && |ma| == |mb| == 2 && |da| == |db| == 2
    ensures ya + (sep + (ma + (sep + da))) == yb + (sep + (mb + (sep + db)))
        <==> ya == yb && ma == mb && da == db
  {
    var x, y := ya + (sep + (ma + (sep + da))), yb + (sep + (mb + (sep + db)));
    if x == y {
      assert ya == x[..4] && yb == y[..4];
      assert ma == x[5..7] && mb == y[5..7];
      assert da == x[8..] && db == y[8..];
    }
  }

  /** Comparing two dates' texts with JavaScript's `<` compares the dates, and
      equal texts mean equal dates: the filters may work on dates. */
  lemma IsoStringOrder(a: Date, b: Date)
    requires Printable(a) && Printable(b)
    ensures LexLess(IsoString(a), IsoString(b)) <==> Before(a, b)
    ensures IsoString(a) == IsoString(b) <==> a == b
  {
    assert Pow10(2) == 100 && Pow10(4) == 10000;
    DigitsOrder(a.year, b.year, 4);
    DigitsOrder(a.month, b.month, 2);
    DigitsOrder(a.day, b.day, 2);
    var ya, ma, da := Digits(a.year, 4), Digits(a.month, 2), Digits(a.day, 2);
    var yb, mb, db := Digits(b.year, 4), Digits(b.month, 2), Digits(b.day, 2);
    FieldsOrder("-", ya, ma, da, yb, mb, db);
    FieldsEqual("-", ya, ma, da, yb, mb, db);
  }
}
