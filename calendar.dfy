/** The proleptic Gregorian calendar of ECMAScript `Date`, read in UTC: day
    numbers counted from 1970-01-01, civil dates, weekdays, the ISO 8601 week
    number, and the text `toISOString` prints. */
module Calendar {
  import opened Common
  import opened Decimal

  /* ---------------- years ---------------- */

  predicate IsLeap(y: int) { (y % 4 == 0 && y % 100 != 0) || y % 400 == 0 }

  function YearLength(y: int): int { if IsLeap(y) then 366 else 365 }

  /** Counts the leap years up to `y`; it steps by one exactly at a leap year. */
  function LeapCount(y: int): int { y / 4 - y / 100 + y / 400 }

  /** Days from 1970-01-01 to the first of January of `y`. */
  function DaysBeforeYear(y: int): int
  {
    365 * (y - 1970) + LeapCount(y - 1) - LeapCount(1969)
  }

  lemma DivStep4(y: int)
    ensures y / 4 - (y - 1) / 4 == if y % 4 == 0 then 1 else 0
  {
  }

  lemma DivStep100(y: int)
    ensures y / 100 - (y - 1) / 100 == if y % 100 == 0 then 1 else 0
  {
  }

  lemma DivStep400(y: int)
    ensures y / 400 - (y - 1) / 400 == if y % 400 == 0 then 1 else 0
  {
  }

  lemma DaysBeforeYearStep(y: int)
    ensures DaysBeforeYear(y + 1) == DaysBeforeYear(y) + YearLength(y)
  {
    DivStep4(y);
    DivStep100(y);
    DivStep400(y);
  }

  lemma {:induction false} DaysBeforeYearMonotone(a: int, b: int)
    requires a < b
    ensures DaysBeforeYear(a + 1) <= DaysBeforeYear(b)
    decreases b - a
  {
    if a + 1 < b {
      DaysBeforeYearMonotone(a + 1, b);
      DaysBeforeYearStep(a + 1);
    }
  }

  function YearUp(n: int, y: int): (r: int)
    requires DaysBeforeYear(y) <= n
    ensures DaysBeforeYear(r) <= n < DaysBeforeYear(r + 1)
    decreases n - DaysBeforeYear(y)
  {
    DaysBeforeYearStep(y);
    if n < DaysBeforeYear(y + 1) then y else YearUp(n, y + 1)
  }

  function YearDown(n: int, y: int): (r: int)
    requires n < DaysBeforeYear(y + 1)
    ensures DaysBeforeYear(r) <= n < DaysBeforeYear(r + 1)
    decreases DaysBeforeYear(y + 1) - n
  {
    DaysBeforeYearStep(y);
    if DaysBeforeYear(y) <= n then y else YearDown(n, y - 1)
  }

  /** The year holding day `n`. */
  function YearOf(n: int): (y: int)
    ensures DaysBeforeYear(y) <= n < DaysBeforeYear(y + 1)
  {
    if n >= 0 then YearUp(n, 1970) else YearDown(n, 1969)
  }

  lemma YearOfUnique(n: int, y: int)
    requires DaysBeforeYear(y) <= n < DaysBeforeYear(y + 1)
    ensures YearOf(n) == y
  {
    var z := YearOf(n);
    if z < y {
      DaysBeforeYearMonotone(z, y);
    } else if y < z {
      DaysBeforeYearMonotone(y, z);
    }
  }

  /* ---------------- months ---------------- */

  /** Days of year `y` before the first of month `m` (13 stands for the
      following New Year). */
  function DaysBeforeMonth(y: int, m: int): int
    requires 1 <= m <= 13
  {
    var leapDay := if IsLeap(y) && m > 2 then 1 else 0;
    [0, 31, 59, 90, 120, 151, 181, 212, 243, 273, 304, 334, 365][m - 1] + leapDay
  }

  function DaysInMonth(y: int, m: int): int
    requires 1 <= m <= 12
  {
    if m == 2 then (if IsLeap(y) then 29 else 28)
    else if m == 4 || m == 6 || m == 9 || m == 11 then 30
    else 31
  }

  lemma DaysInMonthSpan(y: int, m: int)
    requires 1 <= m <= 12
    ensures DaysBeforeMonth(y, m + 1) == DaysBeforeMonth(y, m) + DaysInMonth(y, m)
    ensures DaysBeforeMonth(y, 1) == 0 && DaysBeforeMonth(y, 13) == YearLength(y)
  {
  }

  lemma DaysBeforeMonthMonotone(y: int, a: int, b: int)
    requires 1 <= a < b <= 13
    ensures DaysBeforeMonth(y, a + 1) <= DaysBeforeMonth(y, b)
  {
  }

  function MonthFrom(y: int, doy: int, m: int): (r: int)
    requires 1 <= m <= 12 && DaysBeforeMonth(y, m) <= doy < YearLength(y)
    ensures m <= r <= 12 && DaysBeforeMonth(y, r) <= doy < DaysBeforeMonth(y, r + 1)
    decreases 12 - m
  {
    if m == 12 || doy < DaysBeforeMonth(y, m + 1) then m else MonthFrom(y, doy, m + 1)
  }

  lemma MonthOfUnique(y: int, doy: int, m: int)
    requires 1 <= m <= 12 && DaysBeforeMonth(y, m) <= doy < DaysBeforeMonth(y, m + 1)
    ensures 0 <= doy < YearLength(y)
    ensures MonthFrom(y, doy, 1) == m
  {
    var z := MonthFrom(y, doy, 1);
    if z < m {
      DaysBeforeMonthMonotone(y, z, m);
    } else if m < z {
      DaysBeforeMonthMonotone(y, m, z);
    }
  }

  /* ---------------- civil dates ---------------- */

  datatype Date = Date(year: int, month: int, day: int)

  predicate ValidDate(d: Date)
  {
    1 <= d.month <= 12 && 1 <= d.day <= DaysInMonth(d.year, d.month)
  }

  /** `Date.UTC(y, m - 1, d)` divided by the length of a day. */
  function DaysFromCivil(d: Date): int
    requires 1 <= d.month <= 12
  {
    DaysBeforeYear(d.year) + DaysBeforeMonth(d.year, d.month) + d.day - 1
  }

  /** The UTC calendar date of day `n`: `getUTCFullYear`, `getUTCMonth() + 1`
      and `getUTCDate`. */
  function Civil(n: int): (d: Date)
    ensures ValidDate(d)
    ensures DaysFromCivil(d) == n
  {
    var y := YearOf(n);
    DaysBeforeYearStep(y);
    var doy := n - DaysBeforeYear(y);
    var m := MonthFrom(y, doy, 1);
    DaysInMonthSpan(y, m);
    Date(y, m, doy - DaysBeforeMonth(y, m) + 1)
  }

  /** A valid date is the date of its own day number. */
  lemma CivilOfDays(d: Date)
    requires ValidDate(d)
    ensures Civil(DaysFromCivil(d)) == d
  {
    var n := DaysFromCivil(d);
    DaysInMonthSpan(d.year, d.month);
    DaysBeforeMonthMonotone(d.year, d.month, 13);
    DaysBeforeYearStep(d.year);
    YearOfUnique(n, d.year);
    MonthOfUnique(d.year, n - DaysBeforeYear(d.year), d.month);
  }

  predicate DateBefore(a: Date, b: Date)
  {
    a.year < b.year || (a.year == b.year && (a.month < b.month || (a.month == b.month && a.day < b.day)))
  }

  lemma DayWithinYear(d: Date)
    requires ValidDate(d)
    ensures DaysBeforeYear(d.year) <= DaysFromCivil(d) < DaysBeforeYear(d.year + 1)
  {
    DaysInMonthSpan(d.year, d.month);
    DaysBeforeMonthMonotone(d.year, d.month, 13);
    DaysBeforeYearStep(d.year);
  }

  /** Day numbers grow exactly as dates do in year, month, day order. */
  lemma DaysFromCivilOrder(a: Date, b: Date)
    requires ValidDate(a) && ValidDate(b)
    ensures DateBefore(a, b) <==> DaysFromCivil(a) < DaysFromCivil(b)
  {
    DayWithinYear(a);
    DayWithinYear(b);
    if a.year < b.year {
      DaysBeforeYearMonotone(a.year, b.year);
    } else if b.year < a.year {
      DaysBeforeYearMonotone(b.year, a.year);
    } else {
      DaysInMonthSpan(a.year, a.month);
      DaysInMonthSpan(b.year, b.month);
      if a.month < b.month {
        DaysBeforeMonthMonotone(a.year, a.month, b.month);
      } else if b.month < a.month {
        DaysBeforeMonthMonotone(a.year, b.month, a.month);
      }
    }
  }

  /* ---------------- weekdays and ISO weeks ---------------- */

  /** `getUTCDay`: 0 for Sunday; 1970-01-01 was a Thursday. */
  function Weekday(n: int): (w: int)
    ensures 0 <= w < 7
  {
    (n + 4) % 7
  }

  /** `getUTCDay() || 7`: Monday 1 .. Sunday 7. */
  function IsoWeekday(n: int): (w: int)
    ensures 1 <= w <= 7
  {
    var w := Weekday(n);
    if w == 0 then 7 else w
  }

  /** `getWeekNumber` for a date whose calendar day is day `n`: move to the
      Thursday of its Monday-to-Sunday week and count the weeks of that
      Thursday's year, rounding up. */
  function WeekNumber(n: int): int
  {
    var th := n + 4 - IsoWeekday(n);
    var yearStart := DaysBeforeYear(YearOf(th));
    Ceil(((th - yearStart) as real + 1.0) / 7.0)
  }

  /* The week date of ISO 8601:2004, section 4.1.4, stated independently:
     weeks run Monday to Sunday, a week belongs to the year holding its
     Thursday, and week 1 of a year is the week holding its 4 January. */

  function MondayOf(n: int): int { n - (IsoWeekday(n) - 1) }

  function IsoWeekYear(n: int): int { YearOf(MondayOf(n) + 3) }

  function Week1Monday(y: int): int { MondayOf(DaysBeforeYear(y) + 3) }

  function IsoWeek(n: int): int { (MondayOf(n) - Week1Monday(IsoWeekYear(n))) / 7 + 1 }

  lemma MondayIsMonday(n: int)
    ensures Weekday(MondayOf(n)) == 1
    ensures n - 6 <= MondayOf(n) <= n
  {
  }

  lemma CeilWeeks(k: int)
    requires k >= 0
    ensures Ceil((k as real + 1.0) / 7.0) == k / 7 + 1
  {
    var q := k / 7;
    assert 7 * q <= k < 7 * q + 7;
    CeilUnique((k as real + 1.0) / 7.0, q + 1);
  }

  lemma ThursdayAfter(m: int)
    requires Weekday(m) == 1
    ensures Weekday(m + 3) == 4
  {
  }

  lemma SameWeekday(a: int, b: int)
    requires Weekday(a) == Weekday(b)
    ensures (a - b) % 7 == 0
  {
    assert a + 4 == 7 * ((a + 4) / 7) + Weekday(a);
    assert b + 4 == 7 * ((b + 4) / 7) + Weekday(b);
    assert a - b == 7 * ((a + 4) / 7 - (b + 4) / 7);
  }

  /** Whole weeks from `b` to `a`, counted from a `base` less than a week
      before `b`. */
  lemma WholeWeeks(a: int, b: int, base: int)
    requires 0 <= b - base < 7 && (a - b) % 7 == 0
    ensures (a - b) / 7 == (a - base) / 7
  {
    var q := (a - b) / 7;
    assert a - b == 7 * q;
    assert a - base == 7 * q + (b - base);
  }

  /** The Thursday of week 1 falls within the first seven days of its year. */
  lemma FirstThursday(y: int)
    ensures 0 <= Week1Monday(y) + 3 - DaysBeforeYear(y) < 7
    ensures Weekday(Week1Monday(y) + 3) == 4
  {
    MondayIsMonday(DaysBeforeYear(y) + 3);
    ThursdayAfter(Week1Monday(y));
  }

  /** The week count `getWeekNumber` returns, in whole-day terms. */
  lemma WeekNumberValue(n: int)
    ensures var th := MondayOf(n) + 3;
            WeekNumber(n) == (th - DaysBeforeYear(YearOf(th))) / 7 + 1
    ensures 1 <= WeekNumber(n) <= 53
  {
    var th := MondayOf(n) + 3;
    var y := YearOf(th);
    DaysBeforeYearStep(y);
    CeilWeeks(th - DaysBeforeYear(y));
  }

  /** `getWeekNumber` computes the ISO 8601 week number. */
  lemma WeekNumberIsIsoWeek(n: int)
    ensures WeekNumber(n) == IsoWeek(n)
    ensures 1 <= WeekNumber(n) <= 53
  {
    WeekNumberValue(n);
    var th := MondayOf(n) + 3;
    var y := IsoWeekYear(n);
    var ys := DaysBeforeYear(y);
    var th1 := Week1Monday(y) + 3;
    FirstThursday(y);
    MondayIsMonday(n);
    ThursdayAfter(MondayOf(n));
    SameWeekday(th, th1);
    WholeWeeks(th, th1, ys);
    assert IsoWeek(n) == (th - th1) / 7 + 1;
  }

  /* ---------------- ISO 8601 text ---------------- */

  /** The year field of `toISOString`: four digits for years 0 to 9999,
      otherwise a sign and six digits. */
  function IsoYear(y: int): (s: string)
    ensures 0 <= y <= 9999 ==> |s| == 4
    ensures |s| >= 4
  {
    if 0 <= y <= 9999 then Fixed(y, 4)
    else (if y < 0 then "-" else "+") + Fixed(if y < 0 then -y else y, 6)
  }

  /** `YYYY-MM-DD` for day `n`. */
  function IsoDate(n: int): (s: string)
    ensures |s| >= 10
  {
    var d := Civil(n);
    IsoYear(d.year) + ("-" + (Fixed(d.month, 2) + ("-" + Fixed(d.day, 2))))
  }

  /** `HH:MM:SS.mmmZ` for a time of day in milliseconds. */
  function IsoTime(ms: int): (s: string)
    requires 0 <= ms < DayMs
    ensures |s| == 13
  {
    Fixed(ms / HourMs, 2) + (":" + (Fixed(ms / 60000 % 60, 2) + (":" + (Fixed(ms / 1000 % 60, 2)
      + ("." + (Fixed(ms % 1000, 3) + "Z"))))))
  }

  /** `new Date(t).toISOString()` for an instant `t` in milliseconds. */
  function IsoInstant(t: int): (s: string)
    ensures |s| >= 24
  {
    IsoDate(t / DayMs) + ("T" + IsoTime(t % DayMs))
  }

  /** `toISOString().slice(0, 10)`: the UTC day of an instant as text. */
  function DayKey(t: int): (s: string)
    ensures |s| == 10
  {
    IsoInstant(t)[..10]
  }

  /** The instants whose year `toISOString` prints with four digits. */
  predicate FourDigitYear(t: int)
  {
    0 <= Civil(t / DayMs).year <= 9999
  }

  lemma DayKeyIsIsoDate(t: int)
    requires FourDigitYear(t)
    ensures DayKey(t) == IsoDate(t / DayMs)
    ensures |IsoDate(t / DayMs)| == 10
  {
    var s := IsoDate(t / DayMs);
    assert IsoInstant(t)[..|s|] == s;
  }

  /** A digit field followed by a separator: the field decides, and on a
      tie what follows the separator does. */
  lemma NumberField(a: nat, b: nat, w: nat, sep: string, x1: string, x2: string)
    requires a < Pow10(w) && b < Pow10(w)
    ensures LexLess(Fixed(a, w) + (sep + x1), Fixed(b, w) + (sep + x2))
        <==> a < b || (a == b && LexLess(x1, x2))
  {
    FixedOrder(a, b, w);
    LexFields(Fixed(a, w), Fixed(b, w), sep + x1, sep + x2);
    LexLessCommonPrefix(sep, x1, x2);
    if Fixed(a, w) == Fixed(b, w) {
      FixedInjective(a, b, w);
    }
  }

  lemma DateTextOrder(d1: Date, d2: Date)
    requires ValidDate(d1) && ValidDate(d2)
    requires 0 <= d1.year <= 9999 && 0 <= d2.year <= 9999
    ensures var t1 := Fixed(d1.year, 4) + ("-" + (Fixed(d1.month, 2) + ("-" + Fixed(d1.day, 2))));
            var t2 := Fixed(d2.year, 4) + ("-" + (Fixed(d2.month, 2) + ("-" + Fixed(d2.day, 2))));
            LexLess(t1, t2) <==> DateBefore(d1, d2)
  {
    assert Pow10(2) == 100 && Pow10(4) == 10000;
    var r1, r2 := Fixed(d1.month, 2) + ("-" + Fixed(d1.day, 2)), Fixed(d2.month, 2) + ("-" + Fixed(d2.day, 2));
    NumberField(d1.year, d2.year, 4, "-", r1, r2);
    NumberField(d1.month, d2.month, 2, "-", Fixed(d1.day, 2), Fixed(d2.day, 2));
    FixedOrder(d1.day, d2.day, 2);
  }

  /** Dates in years 0 to 9999 sort as text exactly as they do in time. */
  lemma IsoDateOrder(n1: int, n2: int)
    requires 0 <= Civil(n1).year <= 9999 && 0 <= Civil(n2).year <= 9999
    ensures |IsoDate(n1)| == 10
    ensures LexLess(IsoDate(n1), IsoDate(n2)) <==> n1 < n2
  {
    var d1, d2 := Civil(n1), Civil(n2);
    DaysFromCivilOrder(d1, d2);
    DateTextOrder(d1, d2);
  }

  /** Times of day sort as text exactly as they do in time. */
  lemma IsoTimeOrder(a: int, b: int)
    requires 0 <= a < DayMs && 0 <= b < DayMs
    ensures LexLess(IsoTime(a), IsoTime(b)) <==> a < b
  {
    assert Pow10(2) == 100 && Pow10(3) == 1000;
    var h1, h2 := a / HourMs, b / HourMs;
    var m1, m2 := a / 60000 % 60, b / 60000 % 60;
    var s1, s2 := a / 1000 % 60, b / 1000 % 60;
    var f1, f2 := a % 1000, b % 1000;
    var z1, z2 := Fixed(f1, 3) + "Z", Fixed(f2, 3) + "Z";
    var c1, c2 := Fixed(s1, 2) + ("." + z1), Fixed(s2, 2) + ("." + z2);
    var b1, b2 := Fixed(m1, 2) + (":" + c1), Fixed(m2, 2) + (":" + c2);
    NumberField(h1, h2, 2, ":", b1, b2);
    NumberField(m1, m2, 2, ":", c1, c2);
    NumberField(s1, s2, 2, ".", z1, z2);
    FixedOrder(f1, f2, 3);
    LexFields(Fixed(f1, 3), Fixed(f2, 3), "Z", "Z");
    LexLessIrreflexive("Z");
    if Fixed(f1, 3) == Fixed(f2, 3) { FixedInjective(f1, f2, 3); }
    MixedRadixOrder(a, b);
  }

  lemma MixedRadixOrder(a: int, b: int)
    requires 0 <= a < DayMs && 0 <= b < DayMs
    ensures var h1, h2 := a / HourMs, b / HourMs;
            var m1, m2 := a / 60000 % 60, b / 60000 % 60;
            var s1, s2 := a / 1000 % 60, b / 1000 % 60;
            var f1, f2 := a % 1000, b % 1000;
            a < b <==> h1 < h2 || (h1 == h2 && (m1 < m2 || (m1 == m2 && (s1 < s2 || (s1 == s2 && f1 < f2)))))
  {
    var sa, sb := a / 1000, b / 1000;
    var ma, mb := sa / 60, sb / 60;
    assert a / 60000 == ma && b / 60000 == mb;
    assert a / HourMs == ma / 60 && b / HourMs == mb / 60;
  }

  /** Between years 0 and 9999, comparing two `toISOString` texts compares
      the instants, and equal texts mean equal instants. */
  lemma IsoInstantOrder(t1: int, t2: int)
    requires FourDigitYear(t1) && FourDigitYear(t2)
    ensures LexLess(IsoInstant(t1), IsoInstant(t2)) <==> t1 < t2
    ensures IsoInstant(t1) == IsoInstant(t2) <==> t1 == t2
  {
    var n1, n2 := t1 / DayMs, t2 / DayMs;
    var q1, q2 := t1 % DayMs, t2 % DayMs;
    IsoDateOrder(n1, n2);
    IsoDateOrder(n2, n1);
    IsoTimeOrder(q1, q2);
    IsoTimeOrder(q2, q1);
    InstantFields(IsoDate(n1), IsoDate(n2), IsoTime(q1), IsoTime(q2));
    InstantFields(IsoDate(n2), IsoDate(n1), IsoTime(q2), IsoTime(q1));
    DayOrder(t1, t2);
  }

  lemma InstantFields(a1: string, a2: string, x1: string, x2: string)
    requires |a1| == |a2|
    ensures LexLess(a1 + ("T" + x1), a2 + ("T" + x2)) <==> LexLess(a1, a2) || (a1 == a2 && LexLess(x1, x2))
    ensures a1 + ("T" + x1) == a2 + ("T" + x2) ==> a1 == a2 && x1 == x2
  {
    LexFields(a1, a2, "T" + x1, "T" + x2);
    LexLessCommonPrefix("T", x1, x2);
    if a1 + ("T" + x1) == a2 + ("T" + x2) {
      assert a1 == (a1 + ("T" + x1))[..|a1|];
      assert "T" + x1 == (a1 + ("T" + x1))[|a1|..];
      assert x1 == ("T" + x1)[1..];
    }
  }

  lemma DayOrder(t1: int, t2: int)
    ensures t1 < t2 <==> t1 / DayMs < t2 / DayMs || (t1 / DayMs == t2 / DayMs && t1 % DayMs < t2 % DayMs)
  {
  }
}
