/**
 * The live component behind the inflation calculator form: two dates the
 * user picks, and either a result or an error after `calculate`.
 */
module InflationCalculatorComponent {
  import opened Wrappers
  import opened Dates
  import opened InflationService

  /** The messages `calculate` can show, by kind (their translated text is not modelled). */
  datatype CalculatorError =
    | MissingDates
    | DataUnavailable
    | InvalidDataFormat
    | OutOfRange(minDate: Date, maxDate: Date)
    | CalculationFailed(cause: ServiceError)

  /** PHP's `!$s` for a string: true for "" and "0", and so never for a month key. */
  predicate Falsy(s: string): (b: bool)
    ensures b ==> !IsMonthKeyText(s)
  {
    s == "" || s == "0"
  }

  /** The range passes `calculate`'s check: both bounds set and not falsy; a range of two month keys does. */
  predicate RangeUsable(range: DateRange): (b: bool)
    ensures (&& range.startDate.Some? && IsMonthKeyText(range.startDate.value)
             && range.endDate.Some? && IsMonthKeyText(range.endDate.value)) ==> b
  {
    && range.startDate.Some? && !Falsy(range.startDate.value)
    && range.endDate.Some? && !Falsy(range.endDate.value)
  }

  /** An unset date or a real calendar date, as the form binds them. */
  predicate ValidField(d: Option<Date>)
  {
    d.Some? ==> d.value.Valid()
  }

  /** The four live props `calculate` writes. */
  datatype Outcome = Outcome(startDate: Option<Date>, endDate: Option<Date>,
                             result: Option<InflationResult>, error: Option<CalculatorError>)

  /**
   * What `calculate` leaves in the live props, from the dates it finds there.
   * `rangeData` and `calculationData` are the EVDS responses behind its two
   * service calls; `fromMonthKey` is `DateTime::createFromFormat('Y-m', ...)`.
   */
  function CalculateOutcome(startDate: Option<Date>, endDate: Option<Date>,
                            rangeData: Option<seq<Record>>, calculationData: Option<seq<Record>>,
                            fromMonthKey: string -> Option<Date>): (o: Outcome)
    requires ValidField(startDate) && ValidField(endDate)
    ensures ValidField(o.startDate) && ValidField(o.endDate)
    ensures (o.result == None) != (o.error == None)
  {
    if startDate.None? || endDate.None? then Outcome(startDate, endDate, None, Some(MissingDates))
    else
      var reversed := Before(endDate.value, startDate.value);
      var s := if reversed then endDate.value else startDate.value;
      var e := if reversed then startDate.value else endDate.value;
      var range := AvailableRange(rangeData);
      if !RangeUsable(range) then Outcome(Some(s), Some(e), None, Some(DataUnavailable))
      else
        var minDate, maxDate := fromMonthKey(range.startDate.value), fromMonthKey(range.endDate.value);
        if minDate.None? || maxDate.None? then Outcome(Some(s), Some(e), None, Some(InvalidDataFormat))
        else if Before(s, minDate.value) || Before(maxDate.value, e) then
          Outcome(Some(s), Some(e), None, Some(OutOfRange(minDate.value, maxDate.value)))
        else
          match Calculation(calculationData, s, e)
          case Success(v) => Outcome(Some(s), Some(e), Some(v), None)
          case Failure(err) => Outcome(Some(s), Some(e), None, Some(CalculationFailed(err)))
  }

  class InflationCalculator {
    var startDate: Option<Date>
    var endDate: Option<Date>
    var result: Option<InflationResult>
    var error: Option<CalculatorError>
    var availableMonths: seq<string>

    /** Dates the form binds are real calendar dates. */
    ghost predicate Valid()
      reads this
    {
      ValidField(startDate) && ValidField(endDate)
    }

    /** The component as first rendered, with the months of the EVDS response `fetched`. */
    constructor(fetched: Option<seq<Record>>)
      ensures Valid()
      ensures availableMonths == AvailableMonths(fetched)
      ensures startDate == None && endDate == None && result == None && error == None
    {
      startDate, endDate, result, error := None, None, None, None;
      availableMonths := AvailableMonths(fetched);
    }

    /** The `calculate` action. */
    method Calculate(rangeData: Option<seq<Record>>, calculationData: Option<seq<Record>>,
                     fromMonthKey: string -> Option<Date>)
      requires Valid()
      modifies this
      ensures Valid()
      ensures var o := CalculateOutcome(old(startDate), old(endDate), rangeData, calculationData, fromMonthKey);
              startDate == o.startDate && endDate == o.endDate && result == o.result && error == o.error
      ensures availableMonths == old(availableMonths)
    {
      if startDate.None? || endDate.None? {
        error := Some(MissingDates);
        result := None;
        return;
      }

      if Before(endDate.value, startDate.value) {
        startDate, endDate := endDate, startDate;
      }

      var dateRange := GetAvailableDateRange(rangeData);
      if dateRange.startDate.None? || Falsy(dateRange.startDate.value)
         || dateRange.endDate.None? || Falsy(dateRange.endDate.value) {
        error := Some(DataUnavailable);
        result := None;
        return;
      }

      var minDate := fromMonthKey(dateRange.startDate.value);
      var maxDate := fromMonthKey(dateRange.endDate.value);
      if minDate.None? || maxDate.None? {
        error := Some(InvalidDataFormat);
        result := None;
        return;
      }

      if Before(startDate.value, minDate.value) || Before(maxDate.value, endDate.value) {
        error := Some(OutOfRange(minDate.value, maxDate.value));
        result := None;
        return;
      }

      var r := CalculateInflation(calculationData, startDate.value, endDate.value);
      match r {
        case Success(v) =>
          result := Some(v);
          error := None;
        case Failure(e) =>
          error := Some(CalculationFailed(e));
          result := None;
      }
    }

    /** The `reset` action: clears the form and its outcome, keeps the month list. */
    method Reset()
      modifies this
      ensures Valid()
      ensures startDate == None && endDate == None && result == None && error == None
      ensures availableMonths == old(availableMonths)
    {
      startDate := None;
      endDate := None;
      result := None;
      error := None;
    }
  }

  /** A missing date is reported as such, and only then; the dates stay as they were. */
  lemma MissingDatesOutcome(startDate: Option<Date>, endDate: Option<Date>,
                            rangeData: Option<seq<Record>>, calculationData: Option<seq<Record>>,
                            fromMonthKey: string -> Option<Date>)
    requires ValidField(startDate) && ValidField(endDate)
    ensures var o := CalculateOutcome(startDate, endDate, rangeData, calculationData, fromMonthKey);
            && (o.error == Some(MissingDates) <==> startDate.None? || endDate.None?)
            && (o.error == Some(MissingDates) ==> o.startDate == startDate && o.endDate == endDate)
  {
  }

  /** With both dates set, they come out in order: as given, or swapped when reversed. */
  lemma DatesOrderedOutcome(a: Date, b: Date,
                            rangeData: Option<seq<Record>>, calculationData: Option<seq<Record>>,
                            fromMonthKey: string -> Option<Date>)
    requires a.Valid() && b.Valid()
    ensures var o := CalculateOutcome(Some(a), Some(b), rangeData, calculationData, fromMonthKey);
            && o.startDate.Some? && o.endDate.Some?
            && !Before(o.endDate.value, o.startDate.value)
            && ((o.startDate, o.endDate) == (Some(a), Some(b)) || (o.startDate, o.endDate) == (Some(b), Some(a)))
  {
    var o := CalculateOutcome(Some(a), Some(b), rangeData, calculationData, fromMonthKey);
    var s, e := if Before(b, a) then b else a, if Before(b, a) then a else b;
    assert o.startDate == Some(s) && o.endDate == Some(e);
    if Before(b, a) {
      BeforeAsymmetric(b, a);
    }
  }

  /** The order in which the two dates are picked does not matter. */
  lemma OutcomeSymmetric(a: Date, b: Date,
                         rangeData: Option<seq<Record>>, calculationData: Option<seq<Record>>,
                         fromMonthKey: string -> Option<Date>)
    requires a.Valid() && b.Valid()
    ensures CalculateOutcome(Some(a), Some(b), rangeData, calculationData, fromMonthKey)
         == CalculateOutcome(Some(b), Some(a), rangeData, calculationData, fromMonthKey)
  {
    BeforeTotal(a, b);
  }

  /**
   * A result is shown exactly when the data range is usable, both of its
   * bounds parse, the ordered dates lie within them and the service
   * calculates; the result is then the service's for the ordered dates.
   */
  lemma ResultOutcome(a: Date, b: Date,
                      rangeData: Option<seq<Record>>, calculationData: Option<seq<Record>>,
                      fromMonthKey: string -> Option<Date>)
    requires a.Valid() && b.Valid()
    ensures var o := CalculateOutcome(Some(a), Some(b), rangeData, calculationData, fromMonthKey);
            o.startDate.Some? && o.endDate.Some?
    ensures var o := CalculateOutcome(Some(a), Some(b), rangeData, calculationData, fromMonthKey);
            var range := AvailableRange(rangeData);
            o.result.Some? <==>
              && RangeUsable(range)
              && fromMonthKey(range.startDate.value).Some?
              && fromMonthKey(range.endDate.value).Some?
              && !Before(o.startDate.value, fromMonthKey(range.startDate.value).value)
              && !Before(fromMonthKey(range.endDate.value).value, o.endDate.value)
              && Calculation(calculationData, o.startDate.value, o.endDate.value).Success?
    ensures var o := CalculateOutcome(Some(a), Some(b), rangeData, calculationData, fromMonthKey);
            o.result.Some? ==> o.result.value == Calculation(calculationData, a, b).value
  {
    DatesOrderedOutcome(a, b, rangeData, calculationData, fromMonthKey);
    if Before(b, a) {
      CalculationSymmetric(calculationData, a, b);
    }
  }

  /**
   * When every month of the data is a 'Y-m' key, the data range passes the
   * check exactly when the data loads.
   */
  lemma RangeUsableForMonthKeys(fetched: Option<seq<Record>>)
    requires forall k :: k in AvailableMonths(fetched) ==> IsMonthKeyText(k)
    ensures RangeUsable(AvailableRange(fetched)) <==> InflationData(fetched).Success?
  {
    if InflationData(fetched).Success? {
      var keys := InflationData(fetched).value.keys;
      assert AvailableMonths(fetched) == keys;
      assert AvailableRange(fetched).startDate.value in AvailableMonths(fetched);
      assert AvailableRange(fetched).endDate.value in AvailableMonths(fetched);
    }
  }

  /**
   * With the response unchanged between the two service calls, a usable data
   * range means the service's calculation succeeds.
   */
  lemma UsableRangeMeansCalculationSucceeds(fetched: Option<seq<Record>>, a: Date, b: Date)
    requires a.Valid() && b.Valid()
    requires RangeUsable(AvailableRange(fetched))
    ensures Calculation(fetched, a, b).Success?
  {
  }

  /**
   * So `calculate` reports a calculation failure only when the cached
   * response changed between its two service calls.
   */
  lemma NoCalculationFailureWithOneResponse(startDate: Option<Date>, endDate: Option<Date>,
                                            fetched: Option<seq<Record>>, fromMonthKey: string -> Option<Date>)
    requires ValidField(startDate) && ValidField(endDate)
    ensures var o := CalculateOutcome(startDate, endDate, fetched, fetched, fromMonthKey);
            o.error.Some? ==> !o.error.value.CalculationFailed?
  {
    if startDate.Some? && endDate.Some? && RangeUsable(AvailableRange(fetched)) {
      UsableRangeMeansCalculationSucceeds(fetched, startDate.value, endDate.value);
      UsableRangeMeansCalculationSucceeds(fetched, endDate.value, startDate.value);
    }
  }
}
