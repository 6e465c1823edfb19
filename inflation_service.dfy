/**
 * The inflation service: turns the EVDS response into a table of monthly
 * rates, walks the months between two dates, and compounds the rates found.
 *
 * The response reaches the service through a cache that is treated as
 * transparent, so every operation takes the response itself, `fetched`
 * (`None` for a failed fetch), as a parameter.
 */
module InflationService {
  import opened Wrappers
  import opened StringOrder
  import opened Decimal
  import opened Dates
  import opened RateTables

  /** The illustrative price the result projects. */
  const ReferencePrice: real := 100.0

  const SourceName: string := "EVDS API"

  /** One item of the EVDS response; a field that is missing or null is `None`. */
  datatype Record = Record(tarih: Option<string>, value: Option<string>)

  /** The two runtime exceptions of `getInflationData`. */
  datatype ServiceError = FetchFailed | EmptyData
  {
    function Message(): string
    {
      match this
      case FetchFailed => "Failed to retrieve inflation data from EVDS API."
      case EmptyData => "EVDS API returned empty data."
    }
  }

  // ---------------------------------------------------------------------------
  // getInflationData
  // ---------------------------------------------------------------------------

  /**
   * The record filter: both fields set, and a parsed rate that is not zero or
   * a raw value that is literally "0". So a record is kept exactly when the
   * raw value is "0" or the number it starts with has a non-zero digit.
   */
  predicate Kept(r: Record): (b: bool)
    ensures b <==> && r.tarih.Some? && r.value.Some?
                   && (|| r.value.value == "0"
                       || HasNonZeroDigit(ScanNumber(r.value.value).whole)
                       || HasNonZeroDigit(ScanNumber(r.value.value).fraction))
  {
    && r.tarih.Some? && r.value.Some?
    && (ToFloatNonZero(r.value.value);
        ToFloat(r.value.value) != 0.0 || r.value.value == "0")
  }

  /** The table the `foreach` over `rs` builds, one record after the other. */
  function Normalize(rs: seq<Record>): (t: RateTable)
    ensures t.Valid()
  {
    if |rs| == 0 then Empty
    else
      var t0 := Normalize(rs[..|rs| - 1]);
      var r := rs[|rs| - 1];
      if Kept(r) then Put(t0, r.tarih.value, ToFloat(r.value.value)) else t0
  }

  /** What `getInflationData` returns or throws for the response `fetched`. */
  function InflationData(fetched: Option<seq<Record>>): Result<RateTable, ServiceError>
  {
    if fetched.None? || |fetched.value| == 0 then Failure(FetchFailed)
    else
      var t := Normalize(fetched.value);
      if |t.keys| == 0 then Failure(EmptyData) else Success(t)
  }

  /** `getInflationData`, with the cache transparent. */
  method GetInflationData(fetched: Option<seq<Record>>) returns (r: Result<RateTable, ServiceError>)
    ensures r == InflationData(fetched)
    ensures r.Success? ==> r.value.Valid() && |r.value.keys| > 0
  {
    if fetched.None? || |fetched.value| == 0 {
      return Failure(FetchFailed);
    }
    var apiData := fetched.value;
    var formatted := Empty;
    for i := 0 to |apiData|
      invariant formatted == Normalize(apiData[..i])
    {
      var record := apiData[i];
      assert apiData[..i + 1][..i] == apiData[..i];
      if record.tarih.Some? && record.value.Some? {
        var rate := ToFloat(record.value.value);
        if rate != 0.0 || record.value.value == "0" {
          formatted := Put(formatted, record.tarih.value, rate);
        }
      }
    }
    assert apiData[..|apiData|] == apiData;
    if |formatted.keys| == 0 {
      return Failure(EmptyData);
    }
    return Success(formatted);
  }

  /** `r` passes the filter and is dated `key`. */
  predicate KeptWith(r: Record, key: string)
  {
    Kept(r) && r.tarih.value == key
  }

  /** Some kept record of `rs` carries the month `key`. */
  ghost predicate Carries(rs: seq<Record>, key: string)
  {
    exists i :: 0 <= i < |rs| && KeptWith(rs[i], key)
  }

  lemma CarriesStep(rs: seq<Record>, key: string)
    requires |rs| > 0
    ensures Carries(rs, key) <==> Carries(rs[..|rs| - 1], key) || KeptWith(rs[|rs| - 1], key)
  {
    var front, n := rs[..|rs| - 1], |rs| - 1;
    if Carries(front, key) {
      var i :| 0 <= i < |front| && KeptWith(front[i], key);
      assert rs[i] == front[i];
    }
    if Carries(rs, key) {
      var i :| 0 <= i < |rs| && KeptWith(rs[i], key);
      if i < n {
        assert front[i] == rs[i];
      }
    }
  }

  /** A month is in the table exactly when some kept record carries it. */
  lemma {:induction false} NormalizeKeys(rs: seq<Record>, key: string)
    ensures key in Normalize(rs).rates <==> Carries(rs, key)
  {
    if |rs| > 0 {
      NormalizeKeys(rs[..|rs| - 1], key);
      CarriesStep(rs, key);
    }
  }

  /** When several kept records carry one month, the table holds the rate of the last. */
  lemma {:induction false} LastWriteWins(rs: seq<Record>, i: nat)
    requires i < |rs| && Kept(rs[i])
    requires forall j :: i < j < |rs| && Kept(rs[j]) ==> rs[j].tarih.value != rs[i].tarih.value
    ensures rs[i].tarih.value in Normalize(rs).rates
    ensures Normalize(rs).rates[rs[i].tarih.value] == ToFloat(rs[i].value.value)
  {
    var front := rs[..|rs| - 1];
    if i < |rs| - 1 {
      assert front[i] == rs[i];
      LastWriteWins(front, i);
    }
  }

  /** The outcomes of `getInflationData`, with the exception messages. */
  lemma InflationDataOutcomes(fetched: Option<seq<Record>>)
    ensures InflationData(fetched) == Failure(FetchFailed) <==> fetched.None? || fetched.value == []
    ensures InflationData(fetched) == Failure(EmptyData) <==>
            fetched.Some? && fetched.value != [] && forall i :: 0 <= i < |fetched.value| ==> !Kept(fetched.value[i])
    ensures InflationData(fetched).Success? ==> |InflationData(fetched).value.rates| > 0
    ensures FetchFailed.Message() == "Failed to retrieve inflation data from EVDS API."
    ensures EmptyData.Message() == "EVDS API returned empty data."
  {
    if fetched.Some? && fetched.value != [] {
      var rs := fetched.value;
      var t := Normalize(rs);
      if exists i :: 0 <= i < |rs| && Kept(rs[i]) {
        var i :| 0 <= i < |rs| && Kept(rs[i]);
        NormalizeKeys(rs, rs[i].tarih.value);
        assert rs[i].tarih.value in t.keys;
      }
      if |t.keys| > 0 {
        assert t.keys[0] in t.rates;
        NormalizeKeys(rs, t.keys[0]);
      }
    }
  }

  // ---------------------------------------------------------------------------
  // calculateInflation
  // ---------------------------------------------------------------------------

  /** One entry of `monthlyRates`. */
  datatype MonthlyRate = MonthlyRate(month: string, rate: real)

  /** The array `calculateInflation` returns, without its number_format'ted strings. */
  datatype InflationResult = InflationResult(
    success: bool,
    startDate: Date,
    endDate: Date,
    monthlyRates: seq<MonthlyRate>,
    totalInflationValue: real,
    months: nat,
    priceIncreaseValue: real,
    basePriceExample: real,
    finalPriceExample: real,
    source: string)

  /** A value the month walk can hold in `$currentDate`. */
  predicate Walkable(d: Date)
  {
    d.year >= 0 && 1 <= d.month <= 12
  }

  /** The values of `$currentDate` for which the walk's loop body runs. */
  function Visited(current: Date, end: Date): (ds: seq<Date>)
    requires Walkable(current) && end.Valid()
    ensures forall i :: 0 <= i < |ds| ==> HasMonthKey(ds[i]) && Before(ds[i], end)
    decreases MonthIndex(end) - MonthIndex(current) + 1
  {
    if Before(current, end) then [current] + Visited(FirstOfNextMonth(current), end) else []
  }

  /** The 'Y-m' keys of the given dates. */
  function MonthKeys(ds: seq<Date>): (keys: seq<string>)
    requires forall i :: 0 <= i < |ds| ==> HasMonthKey(ds[i])
    ensures |keys| == |ds|
  {
    if |ds| == 0 then [] else [MonthKey(ds[0])] + MonthKeys(ds[1..])
  }

  /** The `monthlyRates` entries for the given month keys: those the table has, in order. */
  function Select(t: RateTable, keys: seq<string>): seq<MonthlyRate>
  {
    if |keys| == 0 then []
    else
      (if keys[0] in t.rates then [MonthlyRate(keys[0], t.rates[keys[0]])] else []) + Select(t, keys[1..])
  }

  /** The `monthlyRates` the walk from `start` to `end` collects. */
  function Walk(t: RateTable, start: Date, end: Date): seq<MonthlyRate>
    requires Walkable(start) && end.Valid()
  {
    Select(t, MonthKeys(Visited(start, end)))
  }

  /** One turn of the walk's loop. */
  lemma WalkStep(t: RateTable, current: Date, end: Date)
    requires Walkable(current) && end.Valid() && Before(current, end)
    ensures var key := MonthKey(current);
            Walk(t, current, end) ==
              (if key in t.rates then [MonthlyRate(key, t.rates[key])] else [])
              + Walk(t, FirstOfNextMonth(current), end)
  {
    var next := FirstOfNextMonth(current);
    var rest := Visited(next, end);
    assert Visited(current, end) == [current] + rest;
    assert ([current] + rest)[1..] == rest;
    var keys := MonthKeys(Visited(current, end));
    assert keys == [MonthKey(current)] + MonthKeys(rest);
    assert keys[1..] == MonthKeys(rest);
  }

  /** The compound rate: the product of `1 + rate/100`, in the order of the `foreach`. */
  function Compound(rates: seq<MonthlyRate>): real
  {
    if |rates| == 0 then 1.0
    else Compound(rates[..|rates| - 1]) * (1.0 + rates[|rates| - 1].rate / 100.0)
  }

  /** The result for a walk from `start` to `end` that collected `rates`. */
  function Summary(start: Date, end: Date, rates: seq<MonthlyRate>): InflationResult
  {
    var compound := Compound(rates);
    var finalPrice := ReferencePrice * compound;
    InflationResult(true, start, end, rates, (compound - 1.0) * 100.0, |rates|,
                    finalPrice - ReferencePrice, ReferencePrice, finalPrice, SourceName)
  }

  /** What `calculateInflation(a, b)` returns or throws for the response `fetched`. */
  function Calculation(fetched: Option<seq<Record>>, a: Date, b: Date): Result<InflationResult, ServiceError>
    requires a.Valid() && b.Valid()
  {
    var start := if Before(b, a) then b else a;
    var end := if Before(b, a) then a else b;
    match InflationData(fetched)
    case Failure(e) => Failure(e)
    case Success(data) => Success(Summary(start, end, Walk(data, start, end)))
  }

  /**
   * What `calculateInflation` promises: it throws exactly when
   * `getInflationData` does, with the same message; otherwise it reports the
   * two dates in order, the rates of the months walked, their count, and the
   * compounded change applied to the reference price of 100.
   */
  lemma CalculationOutcome(fetched: Option<seq<Record>>, a: Date, b: Date)
    requires a.Valid() && b.Valid()
    ensures var r := Calculation(fetched, a, b);
            && (r.Failure? <==> InflationData(fetched).Failure?)
            && (r.Failure? ==> r.error == InflationData(fetched).error)
            && (r.Success? ==>
                  var v := r.value;
                  && !Before(v.endDate, v.startDate)
                  && ((v.startDate, v.endDate) == (a, b) || (v.startDate, v.endDate) == (b, a))
                  && v.monthlyRates == Walk(InflationData(fetched).value, v.startDate, v.endDate)
                  && v.months == |v.monthlyRates|
                  && v.totalInflationValue == (Compound(v.monthlyRates) - 1.0) * 100.0
                  && v.finalPriceExample == 100.0 * Compound(v.monthlyRates)
                  && v.priceIncreaseValue == v.finalPriceExample - 100.0)
  {
    BeforeTotal(a, b);
  }

  /** `calculateInflation`, with the cache transparent. */
  method CalculateInflation(fetched: Option<seq<Record>>, startDate: Date, endDate: Date)
    returns (r: Result<InflationResult, ServiceError>)
    requires startDate.Valid() && endDate.Valid()
    ensures r == Calculation(fetched, startDate, endDate)
  {
    var s, e := startDate, endDate;
    if Before(e, s) {
      s, e := e, s;
    }
    var fetchedData := GetInflationData(fetched);
    if fetchedData.Failure? {
      return Failure(fetchedData.error);
    }
    var data := fetchedData.value;

    var monthlyRates := CollectMonthlyRates(data, s, e);
    var compoundRate := CompoundRate(monthlyRates);
    var totalInflation := (compoundRate - 1.0) * 100.0;

    var finalPrice := ReferencePrice * compoundRate;
    var priceIncrease := finalPrice - ReferencePrice;

    r := Success(InflationResult(true, s, e, monthlyRates, totalInflation, |monthlyRates|,
                                 priceIncrease, ReferencePrice, finalPrice, SourceName));
    assert r.value == Summary(s, e, monthlyRates);
    assert s == (if Before(endDate, startDate) then endDate else startDate);
    assert e == (if Before(endDate, startDate) then startDate else endDate);
  }

  /** The `while` loop of `calculateInflation`: the rates of the months walked, in order. */
  method CollectMonthlyRates(data: RateTable, startDate: Date, endDate: Date)
    returns (monthlyRates: seq<MonthlyRate>)
    requires startDate.Valid() && endDate.Valid()
    ensures monthlyRates == Walk(data, startDate, endDate)
  {
    monthlyRates := [];
    var currentDate := startDate;
    while Before(currentDate, endDate)
      invariant Walkable(currentDate)
      invariant monthlyRates + Walk(data, currentDate, endDate) == Walk(data, startDate, endDate)
      decreases MonthIndex(endDate) - MonthIndex(currentDate) + 1
    {
      var monthStr := MonthKey(currentDate);
      var next := FirstOfNextMonth(currentDate);
      WalkStep(data, currentDate, endDate);
      ghost var rest := Walk(data, next, endDate);
      if monthStr in data.rates {
        var entry := MonthlyRate(monthStr, data.rates[monthStr]);
        assert monthlyRates + ([entry] + rest) == (monthlyRates + [entry]) + rest;
        monthlyRates := monthlyRates + [entry];
      } else {
        assert [] + rest == rest;
      }
      currentDate := next;
    }
  }

  /** The `foreach` of `calculateInflation`: the compound rate of the months collected. */
  method CompoundRate(monthlyRates: seq<MonthlyRate>) returns (compoundRate: real)
    ensures compoundRate == Compound(monthlyRates)
  {
    compoundRate := 1.0;
    for i := 0 to |monthlyRates|
      invariant compoundRate == Compound(monthlyRates[..i])
    {
      assert monthlyRates[..i + 1][..i] == monthlyRates[..i];
      compoundRate := compoundRate * (1.0 + monthlyRates[i].rate / 100.0);
    }
    assert monthlyRates[..|monthlyRates|] == monthlyRates;
  }

  // ---------------------------------------------------------------------------
  // What the walk collects
  // ---------------------------------------------------------------------------

  lemma FirstDayOfItself(d: Date)
    requires Walkable(d) && d.day == 1
    ensures FirstDayOf(MonthIndex(d)) == d
  {
  }

  /** After the start date, the walk lands on the first day of each following month. */
  lemma {:induction false} VisitedFirstDays(current: Date, end: Date)
    requires Walkable(current) && end.Valid()
    ensures forall i :: 0 < i < |Visited(current, end)| ==>
              Visited(current, end)[i] == FirstDayOf(MonthIndex(current) + i)
    decreases MonthIndex(end) - MonthIndex(current) + 1
  {
    if Before(current, end) {
      var next := FirstOfNextMonth(current);
      VisitedFirstDays(next, end);
      FirstDayOfItself(next);
      var rest := Visited(next, end);
      var ds := Visited(current, end);
      assert ds == [current] + rest;
      assert MonthIndex(next) == MonthIndex(current) + 1;
      forall i | 0 < i < |ds|
        ensures ds[i] == FirstDayOf(MonthIndex(current) + i)
      {
        assert ds[i] == rest[i - 1];
        if i == 1 {
          assert rest[0] == next;
        } else {
          var j := i - 1;
          assert rest[j] == FirstDayOf(MonthIndex(next) + j);
          assert MonthIndex(next) + j == MonthIndex(current) + i;
        }
      }
    }
  }

  /** The walk stops at the first month whose first day is not before the end date. */
  lemma {:induction false} VisitedStops(current: Date, end: Date)
    requires Walkable(current) && end.Valid()
    ensures var ds := Visited(current, end);
            |ds| > 0 ==> !Before(FirstDayOf(MonthIndex(current) + |ds|), end)
    decreases MonthIndex(end) - MonthIndex(current) + 1
  {
    if Before(current, end) {
      var next := FirstOfNextMonth(current);
      VisitedStops(next, end);
      FirstDayOfItself(next);
      var rest := Visited(next, end);
      assert |Visited(current, end)| == 1 + |rest|;
    }
  }

  /**
   * The walk visits the start date and then the first day of each following
   * month, as long as that day is before the end date.
   */
  lemma VisitedShape(current: Date, end: Date)
    requires Walkable(current) && end.Valid()
    ensures var ds := Visited(current, end);
            && (|ds| > 0 <==> Before(current, end))
            && (|ds| > 0 ==> ds[0] == current)
            && (forall i :: 0 < i < |ds| ==> ds[i] == FirstDayOf(MonthIndex(current) + i))
            && (forall i :: 0 <= i < |ds| ==> MonthIndex(ds[i]) == MonthIndex(current) + i)
            && (|ds| > 0 ==> !Before(FirstDayOf(MonthIndex(current) + |ds|), end))
  {
    VisitedFirstDays(current, end);
    VisitedStops(current, end);
  }

  lemma FirstDayOrder(a: nat, b: nat)
    ensures a <= b ==> !Before(FirstDayOf(b), FirstDayOf(a))
  {
  }

  /** The start month, and each later month whose first day is before the end date, is walked. */
  lemma WalkedMonthsComplete(start: Date, end: Date, index: nat)
    requires Walkable(start) && end.Valid()
    requires Before(start, end)
    requires index == MonthIndex(start) || (index > MonthIndex(start) && Before(FirstDayOf(index), end))
    ensures exists i :: 0 <= i < |Visited(start, end)| && MonthIndex(Visited(start, end)[i]) == index
  {
    var ds := Visited(start, end);
    VisitedShape(start, end);
    if index == MonthIndex(start) {
      assert MonthIndex(ds[0]) == index;
    } else {
      var i := index - MonthIndex(start);
      FirstDayOrder(MonthIndex(start) + |ds|, index);
      assert MonthIndex(ds[i]) == index;
    }
  }

  /** Every walked month is the start month or a later month whose first day is before the end date. */
  lemma WalkedMonthsSound(start: Date, end: Date, i: nat)
    requires Walkable(start) && end.Valid()
    requires i < |Visited(start, end)|
    ensures Before(start, end)
    ensures var index := MonthIndex(Visited(start, end)[i]);
            index == MonthIndex(start) || (index > MonthIndex(start) && Before(FirstDayOf(index), end))
  {
    VisitedShape(start, end);
  }

  /**
   * A month is walked exactly when it is the start month, or a later month
   * whose first day is before the end date (and the start is before the end).
   */
  lemma WalkedMonths(start: Date, end: Date, index: nat)
    requires Walkable(start) && end.Valid()
    ensures (exists i :: 0 <= i < |Visited(start, end)| && MonthIndex(Visited(start, end)[i]) == index) <==>
            Before(start, end) &&
            (index == MonthIndex(start) || (index > MonthIndex(start) && Before(FirstDayOf(index), end)))
  {
    if Before(start, end) &&
       (index == MonthIndex(start) || (index > MonthIndex(start) && Before(FirstDayOf(index), end))) {
      WalkedMonthsComplete(start, end, index);
    }
    if exists i :: 0 <= i < |Visited(start, end)| && MonthIndex(Visited(start, end)[i]) == index {
      var i :| 0 <= i < |Visited(start, end)| && MonthIndex(Visited(start, end)[i]) == index;
      WalkedMonthsSound(start, end, i);
    }
  }

  lemma {:induction false} MonthKeysAt(ds: seq<Date>)
    requires forall i :: 0 <= i < |ds| ==> HasMonthKey(ds[i])
    ensures forall i :: 0 <= i < |ds| ==> MonthKeys(ds)[i] == MonthKey(ds[i])
  {
    if |ds| > 0 {
      MonthKeysAt(ds[1..]);
      assert forall i :: 0 < i < |ds| ==> ds[1..][i - 1] == ds[i];
    }
  }

  /** The keys of months in increasing order are in increasing string order. */
  lemma MonthKeysOrdered(ds: seq<Date>)
    requires forall i :: 0 <= i < |ds| ==> HasMonthKey(ds[i])
    requires forall i, j :: 0 <= i < j < |ds| ==> MonthIndex(ds[i]) < MonthIndex(ds[j])
    ensures forall i, j :: 0 <= i < j < |ds| ==> LexLess(MonthKeys(ds)[i], MonthKeys(ds)[j])
  {
    MonthKeysAt(ds);
    forall i, j | 0 <= i < j < |ds|
      ensures LexLess(MonthKeys(ds)[i], MonthKeys(ds)[j])
    {
      MonthKeyOrder(ds[i], ds[j]);
    }
  }

  /** Every entry `Select` keeps is one of the given keys, with the table's rate. */
  lemma {:induction false} SelectSound(t: RateTable, keys: seq<string>)
    ensures forall j :: 0 <= j < |Select(t, keys)| ==>
              && Select(t, keys)[j].month in keys
              && Select(t, keys)[j].month in t.rates
              && Select(t, keys)[j].rate == t.rates[Select(t, keys)[j].month]
  {
    if |keys| > 0 {
      var rest := keys[1..];
      SelectSound(t, rest);
      var head := if keys[0] in t.rates then [MonthlyRate(keys[0], t.rates[keys[0]])] else [];
      var tail := Select(t, rest);
      var w := Select(t, keys);
      assert w == head + tail;
      forall j | 0 <= j < |w|
        ensures w[j].month in keys && w[j].month in t.rates && w[j].rate == t.rates[w[j].month]
      {
        if j < |head| {
          assert w[j] == head[0];
        } else {
          assert w[j] == tail[j - |head|];
          assert tail[j - |head|].month in rest;
        }
      }
    }
  }

  /** Every given key the table has gets an entry. */
  lemma {:induction false} SelectComplete(t: RateTable, keys: seq<string>)
    ensures forall k :: k in keys && k in t.rates ==> MonthlyRate(k, t.rates[k]) in Select(t, keys)
  {
    if |keys| > 0 {
      var rest := keys[1..];
      SelectComplete(t, rest);
      var head := if keys[0] in t.rates then [MonthlyRate(keys[0], t.rates[keys[0]])] else [];
      assert Select(t, keys) == head + Select(t, rest);
      forall k | k in keys && k in t.rates
        ensures MonthlyRate(k, t.rates[k]) in Select(t, keys)
      {
        if k != keys[0] {
          assert k in rest;
        }
      }
    }
  }

  /** Keys in increasing order give entries in increasing order. */
  lemma {:induction false} SelectOrdered(t: RateTable, keys: seq<string>)
    requires forall i, j :: 0 <= i < j < |keys| ==> LexLess(keys[i], keys[j])
    ensures forall j, k :: 0 <= j < k < |Select(t, keys)| ==>
              LexLess(Select(t, keys)[j].month, Select(t, keys)[k].month)
  {
    if |keys| > 0 {
      var rest := keys[1..];
      SelectOrdered(t, rest);
      SelectSound(t, rest);
      var head := if keys[0] in t.rates then [MonthlyRate(keys[0], t.rates[keys[0]])] else [];
      var tail := Select(t, rest);
      var w := Select(t, keys);
      assert w == head + tail;
      forall j, k | 0 <= j < k < |w|
        ensures LexLess(w[j].month, w[k].month)
      {
        if j >= |head| {
          assert w[j] == tail[j - |head|] && w[k] == tail[k - |head|];
        } else {
          assert w[j].month == keys[0];
          assert w[k] == tail[k - 1];
          assert tail[k - 1].month in rest;
          var i :| 0 <= i < |rest| && rest[i] == tail[k - 1].month;
          assert keys[i + 1] == rest[i];
        }
      }
    }
  }

  /**
   * `monthlyRates` lists, in strictly increasing month order, exactly the
   * walked months the table has, each with the table's rate; with equal start
   * and end dates it is empty.
   */
  lemma WalkProperties(t: RateTable, start: Date, end: Date)
    requires Walkable(start) && end.Valid()
    ensures var w := Walk(t, start, end);
            var ds := Visited(start, end);
            && (forall j :: 0 <= j < |w| ==> w[j].month in t.rates && w[j].rate == t.rates[w[j].month])
            && (forall j :: 0 <= j < |w| ==> exists i :: 0 <= i < |ds| && w[j].month == MonthKey(ds[i]))
            && (forall i :: 0 <= i < |ds| && MonthKey(ds[i]) in t.rates ==>
                  MonthlyRate(MonthKey(ds[i]), t.rates[MonthKey(ds[i])]) in w)
            && (forall j, k :: 0 <= j < k < |w| ==> LexLess(w[j].month, w[k].month))
            && (start == end ==> w == [])
  {
    var ds := Visited(start, end);
    var keys := MonthKeys(ds);
    var w := Walk(t, start, end);
    VisitedShape(start, end);
    MonthKeysAt(ds);
    MonthKeysOrdered(ds);
    SelectSound(t, keys);
    SelectComplete(t, keys);
    SelectOrdered(t, keys);
    forall j | 0 <= j < |w|
      ensures exists i :: 0 <= i < |ds| && w[j].month == MonthKey(ds[i])
    {
      var i :| 0 <= i < |keys| && keys[i] == w[j].month;
    }
    forall i | 0 <= i < |ds| && MonthKey(ds[i]) in t.rates
      ensures MonthlyRate(MonthKey(ds[i]), t.rates[MonthKey(ds[i])]) in w
    {
      assert keys[i] in keys;
    }
  }

  /** Moving the end date later only appends months to the walk. */
  lemma {:induction false} WalkExtends(t: RateTable, start: Date, end1: Date, end2: Date)
    requires Walkable(start) && end1.Valid() && end2.Valid()
    requires !Before(end2, end1)
    ensures Walk(t, start, end1) <= Walk(t, start, end2)
    decreases MonthIndex(end1) - MonthIndex(start) + 1
  {
    if Before(start, end1) {
      assert Before(start, end2);
      var next := FirstOfNextMonth(start);
      WalkStep(t, start, end1);
      WalkStep(t, start, end2);
      WalkExtends(t, next, end1, end2);
    }
  }

  // ---------------------------------------------------------------------------
  // Compounding
  // ---------------------------------------------------------------------------

  /** Compounding over two consecutive stretches multiplies their compound rates. */
  lemma {:induction false} CompoundAppend(a: seq<MonthlyRate>, b: seq<MonthlyRate>)
    ensures Compound(a + b) == Compound(a) * Compound(b)
  {
    if |b| == 0 {
      assert a + b == a;
    } else {
      var b' := b[..|b| - 1];
      assert (a + b)[..|a + b| - 1] == a + b';
      CompoundAppend(a, b');
    }
  }

  /** Without a negative monthly rate, prices never fall. */
  lemma {:induction false} CompoundAtLeastOne(rates: seq<MonthlyRate>)
    requires forall i :: 0 <= i < |rates| ==> rates[i].rate >= 0.0
    ensures Compound(rates) >= 1.0
  {
    if |rates| > 0 {
      var front := rates[..|rates| - 1];
      CompoundAtLeastOne(front);
      var f := 1.0 + rates[|rates| - 1].rate / 100.0;
      assert Compound(rates) == Compound(front) * f;
      assert Compound(front) * f >= 1.0 * f by {
        assert Compound(front) >= 1.0 && f >= 1.0;
      }
    }
  }

  /** `calculateInflation(a, b)` and `calculateInflation(b, a)` give the same result. */
  lemma CalculationSymmetric(fetched: Option<seq<Record>>, a: Date, b: Date)
    requires a.Valid() && b.Valid()
    ensures Calculation(fetched, a, b) == Calculation(fetched, b, a)
  {
    BeforeTotal(a, b);
  }

  /**
   * When no month in the data has a negative rate, the total inflation is not
   * negative and the example price does not fall below the reference price.
   */
  lemma CalculationWithoutDeflation(fetched: Option<seq<Record>>, a: Date, b: Date)
    requires a.Valid() && b.Valid()
    requires InflationData(fetched).Success?
    requires forall k :: k in InflationData(fetched).value.rates ==> InflationData(fetched).value.rates[k] >= 0.0
    ensures Calculation(fetched, a, b).Success?
    ensures Calculation(fetched, a, b).value.totalInflationValue >= 0.0
    ensures Calculation(fetched, a, b).value.finalPriceExample >= ReferencePrice
  {
    var v := Calculation(fetched, a, b).value;
    SelectSound(InflationData(fetched).value, MonthKeys(Visited(v.startDate, v.endDate)));
    CompoundAtLeastOne(v.monthlyRates);
  }

  // ---------------------------------------------------------------------------
  // getAvailableDateRange and getAvailableMonths
  // ---------------------------------------------------------------------------

  /** The array `getAvailableDateRange` returns; `None` is null. */
  datatype DateRange = DateRange(startDate: Option<string>, endDate: Option<string>)

  /** What `getAvailableDateRange` returns for the response `fetched`. */
  function AvailableRange(fetched: Option<seq<Record>>): DateRange
  {
    match InflationData(fetched)
    case Failure(_) => DateRange(None, None)
    case Success(t) =>
      if |t.keys| == 0 then DateRange(None, None)
      else DateRange(Some(Smallest(t.keys)), Some(Largest(t.keys)))
  }

  /** `getAvailableDateRange`: the smallest and largest month key, or a null pair on failure. */
  method GetAvailableDateRange(fetched: Option<seq<Record>>) returns (range: DateRange)
    ensures range == AvailableRange(fetched)
    ensures InflationData(fetched).Failure? ==> range == DateRange(None, None)
    ensures InflationData(fetched).Success? ==>
              var rates := InflationData(fetched).value.rates;
              && range.startDate.Some? && range.startDate.value in rates
              && range.endDate.Some? && range.endDate.value in rates
              && forall k :: k in rates ==> LexLe(range.startDate.value, k) && LexLe(k, range.endDate.value)
  {
    var data := GetInflationData(fetched);
    if data.Failure? {
      return DateRange(None, None);
    }
    var dates := data.value.keys;
    if |dates| == 0 {
      return DateRange(None, None);
    }
    var sorted := new string[|dates|](i requires 0 <= i < |dates| => dates[i]);
    assert sorted[..] == dates;
    Sort(sorted);
    var first, last := sorted[0], sorted[sorted.Length - 1];
    assert first in multiset(sorted[..]) && last in multiset(sorted[..]);
    forall k | k in dates
      ensures LexLe(first, k) && LexLe(k, last)
    {
      assert k in multiset(dates);
      var i :| 0 <= i < sorted.Length && sorted[i] == k;
      assert sorted[..][0] == first && sorted[..][i] == k && sorted[..][sorted.Length - 1] == last;
    }
    LexLeAntisymmetric(first, Smallest(dates));
    LexLeAntisymmetric(last, Largest(dates));
    range := DateRange(Some(first), Some(last));
  }

  /** `getAvailableMonths`: the table's keys, or an empty list on failure. */
  function AvailableMonths(fetched: Option<seq<Record>>): (months: seq<string>)
    ensures InflationData(fetched).Failure? ==> months == []
    ensures InflationData(fetched).Success? ==>
              && |months| > 0
              && (forall i, j :: 0 <= i < j < |months| ==> months[i] != months[j])
              && (forall k :: k in months <==> Carries(fetched.value, k))
  {
    match InflationData(fetched)
    case Failure(_) => []
    case Success(t) =>
      assert forall k :: k in t.keys <==> Carries(fetched.value, k) by {
        forall k ensures k in t.keys <==> Carries(fetched.value, k) {
          NormalizeKeys(fetched.value, k);
        }
      }
      t.keys
  }
}
