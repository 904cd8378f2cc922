/** Calendar dates as Python's `datetime.date` represents them: a proleptic
    Gregorian day number (`toordinal()`, where 0001-01-01 is day 1) and the
    ISO text `str(d)` (`"%04d-%02d-%02d"`) that is compared with the
    `Appointment.date` column. */
module Dates {
  import opened Text

  /** `date.max.toordinal()`, the ordinal of 9999-12-31. */
  const MaxOrdinal: int := 3652059

  /** A clock reading of `date.today()`: strictly inside the representable
      range, so that `today - timedelta(days=1)` and `today + timedelta(days=1)`
      both exist. */
  type Today = n: int | 1 < n < MaxOrdinal witness 2

  predicate IsLeap(y: int) {
    y % 4 == 0 && (y % 100 != 0 || y % 400 == 0)
  }

  function DaysInYear(y: int): nat {
    if IsLeap(y) then 366 else 365
  }

  function DaysInMonth(y: int, m: int): nat
    requires 1 <= m <= 12
  {
    if m == 2 then (if IsLeap(y) then 29 else 28)
    else if m == 4 || m == 6 || m == 9 || m == 11 then 30
    else 31
  }

  /** Days of year `y` that precede month `m`; month 13 stands for the year's end. */
  function DaysBeforeMonth(y: int, m: int): (r: nat)
    requires 1 <= m <= 13
    ensures m == 13 ==> r == DaysInYear(y)
  {
    var common := [0, 31, 59, 90, 120, 151, 181, 212, 243, 273, 304, 334, 365];
    common[m - 1] + (if m > 2 && IsLeap(y) then 1 else 0)
  }

  /** Month `m + 1` starts where month `m` ends. */
  lemma NextMonthStart(y: int, m: int)
    requires 1 <= m <= 12
    ensures DaysBeforeMonth(y, m + 1) == DaysBeforeMonth(y, m) + DaysInMonth(y, m)
  {
  }

  /** Days from 0001-01-01 up to the first day of year `y`. */
  function DaysBeforeYear(y: int): nat
    requires y >= 1
    decreases y
  {
    if y == 1 then 0 else DaysBeforeYear(y - 1) + DaysInYear(y - 1)
  }

  /** Later years start later: at least a full year `a` lies between the start
      of year `a` and the start of any later year `b`. */
  lemma {:induction false} DaysBeforeYearGrows(a: int, b: int)
    requires 1 <= a < b
    ensures DaysBeforeYear(a) + DaysInYear(a) <= DaysBeforeYear(b)
    decreases b - a
  {
    if b > a + 1 {
      DaysBeforeYearGrows(a, b - 1);
    }
  }

  /** The closed form of the days before year `y`: 365 a year plus one for
      every fourth year, less the centuries, plus the fourth centuries. */
  lemma {:induction false} DaysBeforeYearClosedForm(y: int)
    requires y >= 1
    ensures DaysBeforeYear(y) == 365 * (y - 1) + (y - 1) / 4 - (y - 1) / 100 + (y - 1) / 400
    decreases y
  {
    if y > 1 {
      DaysBeforeYearClosedForm(y - 1);
      LeapCount(y - 1);
    }
  }

  /** Year `x` adds one day to the count of leap days exactly when it is a leap year. */
  lemma LeapCount(x: int)
    ensures (x / 4 - (x - 1) / 4) - (x / 100 - (x - 1) / 100) + (x / 400 - (x - 1) / 400)
            == DaysInYear(x) - 365
  {
    MultipleStep4(x);
    MultipleStep100(x);
    MultipleStep400(x);
    assert x % 100 == 0 ==> x % 4 == 0;
    assert x % 400 == 0 ==> x % 100 == 0;
  }

  lemma MultipleStep4(x: int)
    ensures x / 4 - (x - 1) / 4 == if x % 4 == 0 then 1 else 0
  {
  }

  lemma MultipleStep100(x: int)
    ensures x / 100 - (x - 1) / 100 == if x % 100 == 0 then 1 else 0
  {
  }

  lemma MultipleStep400(x: int)
    ensures x / 400 - (x - 1) / 400 == if x % 400 == 0 then 1 else 0
  {
  }

  /** Year 10000 starts after the last representable day, 9999-12-31. */
  lemma YearTenThousandStartsAfterMax(y: int)
    requires y >= 1
    ensures y >= 10000 ==> DaysBeforeYear(y) >= MaxOrdinal
  {
    if y >= 10000 {
      DaysBeforeYearClosedForm(10000);
      if y > 10000 {
        DaysBeforeYearGrows(10000, y);
      }
    }
  }

  /** A day of the calendar: year, month 1..12, day of month from 1. */
  datatype Civil = Civil(year: int, month: int, day: int)

  predicate Valid(c: Civil) {
    c.year >= 1 && 1 <= c.month <= 12 && 1 <= c.day <= DaysInMonth(c.year, c.month)
  }

  /** `date(y, m, d).toordinal()`. */
  function OrdinalOf(c: Civil): int
    requires Valid(c)
  {
    DaysBeforeYear(c.year) + DaysBeforeMonth(c.year, c.month) + c.day
  }

  /** The year holding day `days` counted from the start of year `y`, and the
      zero-based day within that year. */
  function YearOf(days: nat, y: int): (r: (int, nat))
    requires y >= 1
    ensures r.0 >= y && r.1 < DaysInYear(r.0)
    ensures DaysBeforeYear(r.0) + r.1 == DaysBeforeYear(y) + days
    decreases days
  {
    if days < DaysInYear(y) then (y, days) else YearOf(days - DaysInYear(y), y + 1)
  }

  /** The month holding zero-based day `doy` of year `y`, searching from month `m`. */
  function MonthFrom(y: int, doy: nat, m: int): (r: int)
    requires 1 <= m <= 12 && DaysBeforeMonth(y, m) <= doy < DaysInYear(y)
    ensures m <= r <= 12
    ensures DaysBeforeMonth(y, r) <= doy < DaysBeforeMonth(y, r) + DaysInMonth(y, r)
    decreases 12 - m
  {
    NextMonthStart(y, m);
    if m == 12 || doy < DaysBeforeMonth(y, m + 1) then m else MonthFrom(y, doy, m + 1)
  }

  /** `date.fromordinal(n)`. */
  function FromOrdinal(n: int): (c: Civil)
    requires n >= 1
    ensures Valid(c) && OrdinalOf(c) == n
  {
    var (y, doy) := YearOf(n - 1, 1);
    var m := MonthFrom(y, doy, 1);
    Civil(y, m, doy - DaysBeforeMonth(y, m) + 1)
  }

  /** Two (year, day-of-year) splittings of one day count agree. */
  lemma YearSplitUnique(a: int, x: nat, b: int, z: nat)
    requires a >= 1 && b >= 1 && x < DaysInYear(a) && z < DaysInYear(b)
    requires DaysBeforeYear(a) + x == DaysBeforeYear(b) + z
    ensures a == b && x == z
  {
    if a < b {
      DaysBeforeYearGrows(a, b);
    } else if b < a {
      DaysBeforeYearGrows(b, a);
    }
  }

  /** Two (month, day) splittings of one day of the year agree. */
  lemma MonthSplitUnique(y: int, m1: int, m2: int, doy: nat)
    requires 1 <= m1 <= 12 && 1 <= m2 <= 12
    requires DaysBeforeMonth(y, m1) <= doy < DaysBeforeMonth(y, m1) + DaysInMonth(y, m1)
    requires DaysBeforeMonth(y, m2) <= doy < DaysBeforeMonth(y, m2) + DaysInMonth(y, m2)
    ensures m1 == m2
  {
    if m1 < m2 {
      MonthStartsGrow(y, m1 + 1, m2);
    } else if m2 < m1 {
      MonthStartsGrow(y, m2 + 1, m1);
    }
  }

  lemma {:induction false} MonthStartsGrow(y: int, a: int, b: int)
    requires 1 <= a <= b <= 13
    ensures DaysBeforeMonth(y, a) <= DaysBeforeMonth(y, b)
    decreases b - a
  {
    if a < b {
      NextMonthStart(y, a);
      MonthStartsGrow(y, a + 1, b);
    }
  }

  /** The other direction of the round trip: a valid date survives
      `toordinal` followed by `fromordinal`. */
  lemma OrdinalRoundTrip(c: Civil)
    requires Valid(c)
    ensures FromOrdinal(OrdinalOf(c)) == c
  {
    var n := OrdinalOf(c);
    var d := FromOrdinal(n);
    var doyC := DaysBeforeMonth(c.year, c.month) + c.day - 1;
    var doyD := DaysBeforeMonth(d.year, d.month) + d.day - 1;
    MonthStartsGrow(c.year, c.month + 1, 13);
    MonthStartsGrow(d.year, d.month + 1, 13);
    YearSplitUnique(c.year, doyC, d.year, doyD);
    MonthSplitUnique(c.year, c.month, d.month, doyC);
  }

  /** Every representable day falls in a year of at most four digits. */
  lemma FourDigitYears(n: int)
    requires 1 <= n <= MaxOrdinal
    ensures FromOrdinal(n).year <= 9999
  {
    YearTenThousandStartsAfterMax(FromOrdinal(n).year);
  }

  /** `str(date.fromordinal(n))`: the ISO rendering `YYYY-MM-DD`. */
  function IsoDate(n: int): (s: string)
    requires n >= 1
  {
    var c := FromOrdinal(n);
    Pad4(c.year) + "-" + Pad2(c.month) + "-" + Pad2(c.day)
  }

  /** The three fields of `Y-MM-DD` can be read back from the text. */
  lemma IsoFields(year: string, month: string, day: string)
    requires |month| == 2 && |day| == 2
    ensures var s := year + "-" + month + "-" + day;
      s[..|s| - 6] == year && s[|s| - 5..|s| - 3] == month && s[|s| - 2..] == day
  {
  }

  /** Different days render differently, so a date column compared with
      `str(today)`, `str(yesterday)` and `str(tomorrow)` meets three distinct days. */
  lemma IsoDateInjective(a: int, b: int)
    requires a >= 1 && b >= 1
    ensures IsoDate(a) == IsoDate(b) ==> a == b
  {
    if IsoDate(a) == IsoDate(b) {
      var ca, cb := FromOrdinal(a), FromOrdinal(b);
      IsoFields(Pad4(ca.year), Pad2(ca.month), Pad2(ca.day));
      IsoFields(Pad4(cb.year), Pad2(cb.month), Pad2(cb.day));
      assert Pad4(ca.year) == Pad4(cb.year);
      assert Pad2(ca.month) == Pad2(cb.month);
      assert Pad2(ca.day) == Pad2(cb.day);
      assert ca == cb;
    }
  }
}
