/**
 * Calendar dates as the calculator uses them: a year, a month and a day,
 * compared chronologically, stepped to the first day of the next month, and
 * printed as a 'Y-m' month key ("2024-01").
 */
module Dates {
  import opened Wrappers
  import opened StringOrder
  import opened Decimal

  datatype Date = Date(year: int, month: int, day: int)
  {
    /** A date of the Gregorian calendar whose year 'Y' prints with four digits. */
    predicate Valid()
    {
      0 <= year <= 9999 && 1 <= month <= 12 && 1 <= day <= DaysInMonth(year, month)
    }
  }

  predicate IsLeapYear(y: int)
  {
    y % 4 == 0 && (y % 100 != 0 || y % 400 == 0)
  }

  function DaysInMonth(y: int, m: int): int
    requires 1 <= m <= 12
  {
    if m == 2 then (if IsLeapYear(y) then 29 else 28)
    else if m == 4 || m == 6 || m == 9 || m == 11 then 30
    else 31
  }

  /**
   * `a < b` between two PHP DateTime values (time of day not modelled). Of two
   * dates in real months, a date in an earlier month is before, and a date
   * before another is not in a later month.
   */
  predicate Before(a: Date, b: Date): (r: bool)
    ensures 1 <= a.month <= 12 && 1 <= b.month <= 12 ==>
              (r ==> MonthIndex(a) <= MonthIndex(b)) && (MonthIndex(a) < MonthIndex(b) ==> r)
    ensures r ==> a != b
  {
    a.year < b.year
    || (a.year == b.year && a.month < b.month)
    || (a.year == b.year && a.month == b.month && a.day < b.day)
  }

  lemma BeforeTotal(a: Date, b: Date)
    ensures a == b || Before(a, b) || Before(b, a)
  {
  }

  lemma BeforeAsymmetric(a: Date, b: Date)
    requires Before(a, b)
    ensures !Before(b, a)
  {
  }

  lemma BeforeTransitive(a: Date, b: Date, c: Date)
    requires Before(a, b) && Before(b, c)
    ensures Before(a, c)
  {
  }

  /** Months since January of year 0. */
  function MonthIndex(d: Date): int
  {
    d.year * 12 + d.month - 1
  }

  /** The first day of the month with the given index. */
  function FirstDayOf(index: nat): (d: Date)
    ensures MonthIndex(d) == index && d.day == 1
  {
    Date(index / 12, index % 12 + 1, 1)
  }

  /** `$date->modify('first day of next month')`. */
  function FirstOfNextMonth(d: Date): (r: Date)
    requires 1 <= d.month <= 12
    ensures 1 <= r.month <= 12 && r.day == 1
    ensures MonthIndex(r) == MonthIndex(d) + 1
    ensures r.year >= d.year
  {
    if d.month == 12 then Date(d.year + 1, 1, 1) else Date(d.year, d.month + 1, 1)
  }

  /** A date whose month prints as a 'Y-m' key of seven characters. */
  predicate HasMonthKey(d: Date)
  {
    0 <= d.year <= 9999 && 1 <= d.month <= 12
  }

  /** `$date->format('Y-m')`. */
  function MonthKey(d: Date): (key: string)
    requires HasMonthKey(d)
    ensures |key| == 7 && key[4] == '-'
    ensures IsMonthKeyText(key)
  {
    FixedDigitsAreDigits(d.year, 4);
    FixedDigitsAreDigits(d.month, 2);
    FixedDigits(d.year, 4) + "-" + FixedDigits(d.month, 2)
  }

  /** Month keys sort as strings in the order of the months they name. */
  lemma MonthKeyOrder(a: Date, b: Date)
    requires HasMonthKey(a) && HasMonthKey(b)
    requires MonthIndex(a) < MonthIndex(b)
    ensures LexLess(MonthKey(a), MonthKey(b))
  {
    var ya, yb := FixedDigits(a.year, 4), FixedDigits(b.year, 4);
    var ma, mb := FixedDigits(a.month, 2), FixedDigits(b.month, 2);
    assert MonthKey(a) == ya + ("-" + ma) && MonthKey(b) == yb + ("-" + mb);
    if a.year < b.year {
      FixedDigitsOrder(a.year, b.year, 4, "-" + ma, "-" + mb);
    } else {
      FixedDigitsOrder(a.month, b.month, 2, [], []);
      assert ma + [] == ma && mb + [] == mb;
      LexLessCommonPrefix("-", ma, mb);
      LexLessCommonPrefix(ya, "-" + ma, "-" + mb);
    }
  }

  /** Two dates have the same month key exactly when they lie in the same month. */
  lemma MonthKeyInjective(a: Date, b: Date)
    requires HasMonthKey(a) && HasMonthKey(b)
    ensures MonthKey(a) == MonthKey(b) <==> MonthIndex(a) == MonthIndex(b)
  {
    if MonthIndex(a) < MonthIndex(b) {
      MonthKeyOrder(a, b);
      LexLessIrreflexive(MonthKey(a));
    } else if MonthIndex(b) < MonthIndex(a) {
      MonthKeyOrder(b, a);
      LexLessIrreflexive(MonthKey(a));
    } else {
      assert a.year == b.year && a.month == b.month;
    }
  }

  /** One month key is at most another exactly when its month is not later. */
  lemma MonthKeyLe(a: Date, b: Date)
    requires HasMonthKey(a) && HasMonthKey(b)
    ensures LexLe(MonthKey(a), MonthKey(b)) <==> MonthIndex(a) <= MonthIndex(b)
  {
    MonthKeyInjective(a, b);
    if MonthIndex(b) < MonthIndex(a) {
      MonthKeyOrder(b, a);
      LexLessAsymmetric(MonthKey(b), MonthKey(a));
    } else if MonthIndex(a) < MonthIndex(b) {
      MonthKeyOrder(a, b);
    }
  }

  /** Seven characters shaped like a 'Y-m' key: four digits, a dash, two digits. */
  predicate IsMonthKeyText(key: string)
  {
    && |key| == 7 && key[4] == '-'
    && IsDigit(key[0]) && IsDigit(key[1]) && IsDigit(key[2]) && IsDigit(key[3])
    && IsDigit(key[5]) && IsDigit(key[6])
  }

  /**
   * `DateTime::createFromFormat('Y-m', key)` on the day `today`: year and
   * month come from the key, the day of the month from the clock, running
   * over into the next month when the keyed month is shorter; false (`None`)
   * for text that is not a 'Y-m' key of a month 01 to 12.
   */
  function CreateFromMonthKey(key: string, today: Date): (d: Option<Date>)
    ensures d.Some? ==> IsMonthKeyText(key)
    ensures today.Valid() && d.Some? ==> d.value.Valid()
  {
    if !IsMonthKeyText(key) then None
    else
      var year, month := DigitsValue(key[..4]), DigitsValue(key[5..]);
      DigitsValueBound(key[..4]);
      if month < 1 || 12 < month then None
      else if today.day <= DaysInMonth(year, month) then Some(Date(year, month, today.day))
      else
        var next := FirstOfNextMonth(Date(year, month, 1));
        Some(Date(next.year, next.month, today.day - DaysInMonth(year, month)))
  }

  /**
   * Parsing a month key back lands in that month on the clock's day, or a few
   * days into the next month when the clock's day is past the month's end.
   */
  lemma CreateFromMonthKeyRoundTrip(m: Date, today: Date)
    requires m.Valid() && today.Valid()
    ensures var d := CreateFromMonthKey(MonthKey(m), today);
            && d.Some? && d.value.Valid()
            && (today.day <= DaysInMonth(m.year, m.month) ==> d.value == Date(m.year, m.month, today.day))
            && (today.day > DaysInMonth(m.year, m.month) ==>
                  MonthIndex(d.value) == MonthIndex(m) + 1 && d.value.day == today.day - DaysInMonth(m.year, m.month))
  {
    var key := MonthKey(m);
    var ys, ms := FixedDigits(m.year, 4), FixedDigits(m.month, 2);
    DigitsValueOfFixedDigits(m.year, 4);
    DigitsValueOfFixedDigits(m.month, 2);
    FixedDigitsAreDigits(m.year, 4);
    FixedDigitsAreDigits(m.month, 2);
    assert key[..4] == ys && key[5..] == ms;
    assert key[0] == ys[0] && key[1] == ys[1] && key[2] == ys[2] && key[3] == ys[3];
    assert key[5] == ms[0] && key[6] == ms[1];
  }
}
