/**
 * The range check of `calculate` compares the picked dates with dates parsed
 * from the first and last month keys, and `createFromFormat('Y-m')` takes
 * their day of the month from the clock. A start date on the 1st of the
 * earliest month with data is then refused on every other day of the month.
 */
module CalculatorFindings {
  import opened Wrappers
  import opened StringOrder
  import opened Dates
  import opened RateTables
  import opened InflationService
  import opened ServiceExamples
  import opened InflationCalculatorComponent

  /** The EVDS response of the service's unit test: January and February 2024. */
  function TwoMonths(): Option<seq<Record>>
  {
    Some([Record(Some("2024-01"), Some("10.00")), Record(Some("2024-02"), Some("5.00"))])
  }

  lemma TwoMonthsKeys()
    ensures MonthKey(Date(2024, 1, 1)) == "2024-01"
    ensures MonthKey(Date(2024, 2, 1)) == "2024-02"
    ensures LexLess("2024-01", "2024-02")
  {
    assert MonthKey(Date(2024, 1, 1)) == "2024-01";
    assert MonthKey(Date(2024, 2, 1)) == "2024-02";
    MonthKeyOrder(Date(2024, 1, 1), Date(2024, 2, 1));
  }

  lemma TwoMonthsBounds()
    ensures Smallest(["2024-01", "2024-02"]) == "2024-01"
    ensures Largest(["2024-01", "2024-02"]) == "2024-02"
  {
    var keys := ["2024-01", "2024-02"];
    TwoMonthsKeys();
    LexLessAsymmetric("2024-01", "2024-02");
    assert LexLe(Smallest(keys), "2024-01");
    assert LexLe("2024-02", Largest(keys));
  }

  lemma TwoMonthsRange()
    ensures AvailableMonths(TwoMonths()) == ["2024-01", "2024-02"]
    ensures AvailableRange(TwoMonths()) == DateRange(Some("2024-01"), Some("2024-02"))
  {
    ExampleTable();
    TwoMonthsBounds();
    assert InflationData(TwoMonths()) == Success(RateTable(["2024-01", "2024-02"], map["2024-01" := 10.0, "2024-02" := 5.0]));
  }

  /** `createFromFormat('Y-m', ...)` as it runs on the day `today`. */
  function ParseOn(today: Date): string -> Option<Date>
  {
    key => CreateFromMonthKey(key, today)
  }

  /** A month key parses, on a day the month has, to that day of the month. */
  lemma MonthParsed(m: Date, today: Date, key: string)
    requires m.Valid() && today.Valid() && today.day <= DaysInMonth(m.year, m.month)
    requires key == MonthKey(m)
    ensures ParseOn(today)(key) == Some(Date(m.year, m.month, today.day))
  {
    CreateFromMonthKeyRoundTrip(m, today);
  }

  lemma TwoMonthsParsed(today: Date)
    requires today.Valid() && today.day <= 29
    ensures ParseOn(today)("2024-01") == Some(Date(2024, 1, today.day))
    ensures ParseOn(today)("2024-02") == Some(Date(2024, 2, today.day))
  {
    TwoMonthsKeys();
    assert DaysInMonth(2024, 2) == 29;
    MonthParsed(Date(2024, 1, 1), today, "2024-01");
    MonthParsed(Date(2024, 2, 1), today, "2024-02");
  }

  /** On any day but the 1st, the 'Y-m' key of a month parses to a date after its 1st. */
  lemma ParsedAfterFirstDay(m: Date, today: Date)
    requires m.Valid() && m.day == 1 && today.Valid() && 1 < today.day
    ensures ParseOn(today)(MonthKey(m)).Some?
    ensures Before(m, ParseOn(today)(MonthKey(m)).value)
  {
    CreateFromMonthKeyRoundTrip(m, today);
  }

  /**
   * When the earliest month key parses to a date after the 1st of that month,
   * the 1st of that month is refused as out of range.
   */
  lemma FirstDayRefused(fetched: Option<seq<Record>>, fromMonthKey: string -> Option<Date>, m: Date, e: Date)
    requires m.Valid() && e.Valid() && !Before(e, m)
    requires AvailableRange(fetched).startDate == Some(MonthKey(m))
    requires AvailableRange(fetched).endDate.Some? && !Falsy(AvailableRange(fetched).endDate.value)
    requires fromMonthKey(MonthKey(m)).Some? && Before(m, fromMonthKey(MonthKey(m)).value)
    requires fromMonthKey(AvailableRange(fetched).endDate.value).Some?
    ensures CalculateOutcome(Some(m), Some(e), fetched, fetched, fromMonthKey).error
            == Some(OutOfRange(fromMonthKey(MonthKey(m)).value, fromMonthKey(AvailableRange(fetched).endDate.value).value))
  {
    assert |MonthKey(m)| == 7;
  }

  /**
   * As written: on any day but the 1st, the 1st of the earliest month with
   * data is refused as out of range, because the range starts on that
   * month's day of today (or just after the month, when it is shorter).
   */
  lemma FirstDayOfEarliestMonthRefused(fetched: Option<seq<Record>>, today: Date, m: Date, e: Date)
    requires today.Valid() && 1 < today.day
    requires m.Valid() && m.day == 1 && e.Valid() && !Before(e, m)
    requires AvailableRange(fetched).startDate == Some(MonthKey(m))
    requires AvailableRange(fetched).endDate.Some?
    requires ParseOn(today)(AvailableRange(fetched).endDate.value).Some?
    ensures MonthKey(m) in AvailableMonths(fetched)
    ensures ParseOn(today)(MonthKey(m)).Some?
    ensures CalculateOutcome(Some(m), Some(e), fetched, fetched, ParseOn(today)).error
            == Some(OutOfRange(ParseOn(today)(MonthKey(m)).value, ParseOn(today)(AvailableRange(fetched).endDate.value).value))
  {
    assert InflationData(fetched).Success?;
    assert AvailableMonths(fetched) == InflationData(fetched).value.keys;
    ParsedAfterFirstDay(m, today);
    FirstDayRefused(fetched, ParseOn(today), m, e);
  }

  /**
   * With data for January and February 2024 (the range of the service's
   * unit-test data, by `TwoMonthsRange`), picking 1 January 2024 to
   * 1 February 2024 on the 17th of a month, or any day from the 2nd to the
   * 29th, is refused as out of range.
   */
  lemma EarliestMonthRefused(fetched: Option<seq<Record>>, today: Date)
    requires AvailableRange(fetched) == DateRange(Some("2024-01"), Some("2024-02"))
    requires today.Valid() && 1 < today.day <= 29
    ensures CalculateOutcome(Some(Date(2024, 1, 1)), Some(Date(2024, 2, 1)), fetched, fetched, ParseOn(today)).error
            == Some(OutOfRange(Date(2024, 1, today.day), Date(2024, 2, today.day)))
  {
    var jan, feb := Date(2024, 1, 1), Date(2024, 2, 1);
    TwoMonthsKeys();
    TwoMonthsParsed(today);
    assert AvailableRange(fetched).startDate == Some(MonthKey(jan));
    assert ParseOn(today)(AvailableRange(fetched).endDate.value) == Some(Date(2024, 2, today.day));
    FirstDayOfEarliestMonthRefused(fetched, today, jan, feb);
  }

  /**
   * The range check as evidently intended: the months of the picked dates
   * lie between the first and the last month with data, whatever the day.
   */
  predicate WithinDataMonths(range: DateRange, s: Date, e: Date)
    requires HasMonthKey(s) && HasMonthKey(e)
  {
    && range.startDate.Some? && range.endDate.Some?
    && LexLe(range.startDate.value, MonthKey(s))
    && LexLe(MonthKey(e), range.endDate.value)
  }

  /**
   * For bounds that are the month keys of `lo` and `hi`, the intended check
   * passes exactly when the start date's month is not before `lo`'s and the
   * end date's month is not after `hi`'s, whatever the days.
   */
  lemma WithinDataMonthsByMonth(lo: Date, hi: Date, s: Date, e: Date)
    requires HasMonthKey(lo) && HasMonthKey(hi) && HasMonthKey(s) && HasMonthKey(e)
    ensures WithinDataMonths(DateRange(Some(MonthKey(lo)), Some(MonthKey(hi))), s, e)
            <==> MonthIndex(lo) <= MonthIndex(s) && MonthIndex(e) <= MonthIndex(hi)
  {
    MonthKeyLe(lo, s);
    MonthKeyLe(e, hi);
  }

  /** Dates in months with data always pass the intended check. */
  lemma DataMonthsAccepted(fetched: Option<seq<Record>>, s: Date, e: Date)
    requires s.Valid() && e.Valid()
    requires MonthKey(s) in AvailableMonths(fetched) && MonthKey(e) in AvailableMonths(fetched)
    ensures WithinDataMonths(AvailableRange(fetched), s, e)
  {
    assert InflationData(fetched).Success?;
    var t := InflationData(fetched).value;
    assert AvailableMonths(fetched) == t.keys;
  }

  /** A start date in a month before every month with data fails the intended check. */
  lemma EarlierMonthRefused(fetched: Option<seq<Record>>, s: Date, e: Date)
    requires s.Valid() && e.Valid()
    requires forall k :: k in AvailableMonths(fetched) ==> LexLess(MonthKey(s), k)
    ensures !WithinDataMonths(AvailableRange(fetched), s, e)
  {
    var range := AvailableRange(fetched);
    if range.startDate.Some? {
      var t := InflationData(fetched).value;
      assert range.startDate.value in AvailableMonths(fetched);
      LexLessIrreflexive(MonthKey(s));
      LexLessAsymmetric(MonthKey(s), range.startDate.value);
    }
  }

  /** The example that is refused as written passes the intended check. */
  lemma EarliestMonthAcceptedAsIntended(fetched: Option<seq<Record>>)
    requires AvailableRange(fetched) == DateRange(Some("2024-01"), Some("2024-02"))
    ensures WithinDataMonths(AvailableRange(fetched), Date(2024, 1, 1), Date(2024, 2, 1))
  {
    TwoMonthsKeys();
  }
}
