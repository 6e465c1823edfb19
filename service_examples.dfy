/**
 * The record filter and the service's unit tests, stated on concrete inputs.
 */
module ServiceExamples {
  import opened Wrappers
  import opened Decimal
  import opened Dates
  import opened RateTables
  import opened InflationService

  lemma ScanZeroPointZeroZero()
    ensures ScanNumber("0.00") == NumericPrefix(false, "0", "00")
  {
    assert DigitRun("0.00") == 1;
    assert DigitRun("00") == 2;
  }

  lemma ScanTenPointZeroZero()
    ensures ScanNumber("10.00") == NumericPrefix(false, "10", "00")
  {
    assert DigitRun("10.00") == 2;
    assert DigitRun("00") == 2;
  }

  lemma ScanFivePointZeroZero()
    ensures ScanNumber("5.00") == NumericPrefix(false, "5", "00")
  {
    assert DigitRun("5.00") == 1;
    assert DigitRun("00") == 2;
  }

  lemma ScanSixtyFour()
    ensures ScanNumber("64.77") == NumericPrefix(false, "64", "77")
  {
    assert DigitRun("64.77") == 2;
    assert DigitRun("77") == 2;
  }

  /** PHP's `(float)` of the raw values that are zero in these examples. */
  lemma ToFloatZeroExamples()
    ensures ToFloat("0") == 0.0
    ensures ToFloat("0.00") == 0.0
    ensures ToFloat("") == 0.0
  {
    ScanZeroPointZeroZero();
    assert DigitsValue("00") == 0;
    assert FractionValue("00") == 0.0;
  }

  /** PHP's `(float)` of the rates in these examples. */
  lemma ToFloatRateExamples()
    ensures ToFloat("10.00") == 10.0
    ensures ToFloat("5.00") == 5.0
    ensures ToFloat("64.77") == 64.77
  {
    ScanTenPointZeroZero();
    ScanFivePointZeroZero();
    ScanSixtyFour();
    assert DigitsValue("10") == 10;
    assert DigitsValue("5") == 5;
    assert DigitsValue("64") == 64 && DigitsValue("77") == 77;
    assert FractionValue("00") == 0.0;
    assert FractionValue("77") == 0.77;
  }

  /** "0" is kept although it parses to 0; "0.00", "" and a missing field are dropped. */
  lemma FilterExamples()
    ensures Kept(Record(Some("2024-01"), Some("0")))
    ensures !Kept(Record(Some("2024-01"), Some("0.00")))
    ensures !Kept(Record(Some("2024-01"), Some("")))
    ensures Kept(Record(Some("2024-01"), Some("64.77")))
    ensures !Kept(Record(None, Some("64.77")))
    ensures !Kept(Record(Some("2024-01"), None))
  {
    ToFloatZeroExamples();
    ToFloatRateExamples();
  }

  /** The unit test in which the API fails. */
  lemma ThrowsWhenApiFails()
    ensures Calculation(None, Date(2024, 1, 1), Date(2024, 2, 1)) == Failure(FetchFailed)
    ensures FetchFailed.Message() == "Failed to retrieve inflation data from EVDS API."
  {
  }

  lemma ExampleRecordsKept()
    ensures Kept(Record(Some("2024-01"), Some("10.00")))
    ensures Kept(Record(Some("2024-02"), Some("5.00")))
    ensures ToFloat("10.00") == 10.0 && ToFloat("5.00") == 5.0
  {
    ToFloatRateExamples();
  }

  lemma ExampleTableJanuary()
    ensures Normalize([Record(Some("2024-01"), Some("10.00"))]) == Put(Empty, "2024-01", 10.0)
  {
    var jan := Record(Some("2024-01"), Some("10.00"));
    ExampleRecordsKept();
    assert [jan][..0] == [];
  }

  lemma ExampleTableFebruary()
    ensures Normalize([Record(Some("2024-01"), Some("10.00")), Record(Some("2024-02"), Some("5.00"))])
            == Put(Normalize([Record(Some("2024-01"), Some("10.00"))]), "2024-02", 5.0)
  {
    var jan, feb := Record(Some("2024-01"), Some("10.00")), Record(Some("2024-02"), Some("5.00"));
    ExampleRecordsKept();
    assert [jan, feb][..1] == [jan];
  }

  lemma ExamplePuts()
    ensures Put(Put(Empty, "2024-01", 10.0), "2024-02", 5.0)
            == RateTable(["2024-01", "2024-02"], map["2024-01" := 10.0, "2024-02" := 5.0])
  {
    assert "2024-02" !in map["2024-01" := 10.0];
  }

  lemma ExampleTable()
    ensures Normalize([Record(Some("2024-01"), Some("10.00")), Record(Some("2024-02"), Some("5.00"))])
            == RateTable(["2024-01", "2024-02"], map["2024-01" := 10.0, "2024-02" := 5.0])
  {
    ExampleTableJanuary();
    ExampleTableFebruary();
    ExamplePuts();
  }

  lemma ExampleWalk(t: RateTable)
    requires t.rates == map["2024-01" := 10.0, "2024-02" := 5.0]
    ensures Walk(t, Date(2024, 1, 1), Date(2024, 3, 1)) == [MonthlyRate("2024-01", 10.0), MonthlyRate("2024-02", 5.0)]
  {
    var d1, d2, d3 := Date(2024, 1, 1), Date(2024, 2, 1), Date(2024, 3, 1);
    assert MonthKey(d1) == "2024-01";
    assert MonthKey(d2) == "2024-02";
    WalkStep(t, d1, d3);
    WalkStep(t, d2, d3);
    assert Walk(t, d3, d3) == [];
  }

  /** The unit test with rates 10.00 and 5.00 for January and February 2024: 15.5 percent. */
  lemma UsesApiData()
    ensures var fetched := Some([Record(Some("2024-01"), Some("10.00")), Record(Some("2024-02"), Some("5.00"))]);
            var r := Calculation(fetched, Date(2024, 1, 1), Date(2024, 3, 1));
            && r.Success?
            && r.value.success
            && r.value.source == "EVDS API"
            && r.value.months == 2
            && r.value.totalInflationValue == 15.5
  {
    ExampleTable();
    var t := RateTable(["2024-01", "2024-02"], map["2024-01" := 10.0, "2024-02" := 5.0]);
    ExampleWalk(t);
    var rates := [MonthlyRate("2024-01", 10.0), MonthlyRate("2024-02", 5.0)];
    assert rates[..1] == [MonthlyRate("2024-01", 10.0)];
    assert Compound(rates) == 1.1 * 1.05;
  }
}
