# Inflation calculator core, in Dafny

This project models the inflation calculator of a Symfony application. It
computes compound Turkish consumer-price inflation between two dates from
monthly rates that the EVDS statistics API serves. Two PHP classes form
the core:

- `InflationService` (modules `InflationService`, `RateTables`, `Decimal`,
  `Dates`, `StringOrder`). It turns the EVDS response into an ordered table
  of month key ("2024-01") to rate (`getInflationData`). It walks the months
  from the start date to the end date, collects the rates the table has,
  compounds them and projects them onto a reference price of 100
  (`calculateInflation`). It also reports the first and last month with data
  (`getAvailableDateRange`) and the list of months (`getAvailableMonths`).
- `InflationCalculatorComponent` (module `InflationCalculatorComponent`). This
  is the live form that holds the two picked dates and shows a result or an
  error. It is a class whose `Calculate` and `Reset` methods update its
  fields as the PHP actions do. `CalculateOutcome` states what `calculate`
  leaves in those fields.

The service is stateless apart from its cache. Every service operation
therefore takes the EVDS response `fetched` as a parameter; `None` stands
for a failed fetch (`null`). The component's `calculate` calls the service
twice, and the cache may refetch in between, so `Calculate` takes one
response for each call (`rangeData`, `calculationData`). The same response
for both is the common case; `NoCalculationFailureWithOneResponse` shows
that the catch branch can then never be reached.

PHP values are modelled as follows:

- `(float)` is a parser of the decimal number at the start of a string
  (`Decimal.ToFloat`).
- `DateTime` values are calendar dates (`Dates.Date`), with years 0 to 9999.
- `format('Y-m')` is `Dates.MonthKey`.
- `modify('first day of next month')` is `Dates.FirstOfNextMonth`.
- PHP's `sort()` on the month keys is an insertion sort on an array
  (`StringOrder.Sort`).
- `DateTime::createFromFormat('Y-m', ...)` is a function parameter
  `fromMonthKey` of `Calculate`. `Dates.CreateFromMonthKey` is that parse as
  it behaves on a given day of the clock.

Two behaviours of the code are worth stating outright:

- The month walk runs while the current date is before the end date. So the
  end date's own month is walked whenever the start date is before the end
  date and the end date is after the 1st of its month. `WalkedMonths` states
  the exact rule.
- A failed fetch and data that filters to nothing are two different
  exceptions, with two different messages (`FetchFailed`, `EmptyData`).

## Model

| member | source | states |
|---|---|---|
| `InflationService.GetInflationData` | src/Service/InflationService.php:25-70 | Returns exactly `InflationData(fetched)`: it fails for a missing or empty response, fails when every record is filtered out, and otherwise returns a valid table with at least one month. The loop invariant ties each step to `Normalize` of the records seen. |
| `InflationService.Normalize` | src/Service/InflationService.php:50-62 | The table built record by record is valid: each month is listed once, and listed exactly when it has a rate. |
| `RateTables.Put` | src/Service/InflationService.php:59 | `$formattedData[$date] = $rate` sets the month's rate and changes no other. Months already present keep their positions, and the table stays valid. |
| `InflationService.NormalizeKeys` | src/Service/InflationService.php:51-59 | A month is in the table exactly when some record that passes the filter carries it (both directions). |
| `InflationService.CarriesStep` | src/Service/InflationService.php:50-51 | Some record of a list carries a month exactly when a record of the list without its last item does, or the last item does. |
| `InflationService.LastWriteWins` | src/Service/InflationService.php:58-59 | When several kept records carry one month, the table holds the parsed rate of the last of them. |
| `InflationService.Kept` | src/Service/InflationService.php:51-58 | A record is kept exactly when both fields are set and the raw rate is "0", or the number it starts with has a non-zero digit before or after the point. |
| `InflationService.InflationDataOutcomes` | src/Service/InflationService.php:39-66 | The fetch-failure exception occurs exactly for a null or empty response, the empty-data exception exactly when no record passes the filter, a success holds at least one rate, and both exception messages are the source's texts. |
| `ServiceExamples.FilterExamples` | src/Service/InflationService.php:55-59 | A raw "0" is kept although it parses to 0; "0.00", "" and a record missing either field are dropped; "64.77" is kept. |
| `ServiceExamples.ToFloatZeroExamples` | src/Service/InflationService.php:55 | The float cast of "0", "0.00" and "" is 0. |
| `ServiceExamples.ToFloatRateExamples` | src/Service/InflationService.php:55 | The float cast of "10.00", "5.00" and "64.77" gives 10, 5 and 64.77. |
| `Decimal.ToFloat` | src/Service/InflationService.php:55 | The digits before the point are the whole part of the cast's magnitude, and only a leading minus sign makes the result negative. |
| `Decimal.ToFloatNonZero` | src/Service/InflationService.php:55-58 | The cast is non-zero exactly when the number the string starts with has a non-zero digit, before or after the point. |
| `Decimal.ToFloatOfNatToDecimal` | src/Service/InflationService.php:55 | The float cast of a whole number printed in decimal gives that number back. |
| `Decimal.FractionValue` | src/Service/InflationService.php:55 | The digits after the decimal point add a value of at least 0 and below 1. |
| `Decimal.DigitsValueOfFixedDigits` | src/Twig/Components/InflationCalculatorComponent.php:71-72 | Reading the zero-padded year or month of a 'Y-m' key back gives the number. |
| `InflationService.CalculateInflation` | src/Service/InflationService.php:80-131 | Returns exactly `Calculation(fetched, startDate, endDate)`, whose meaning `CalculationOutcome` states. |
| `InflationService.CalculationOutcome` | src/Service/InflationService.php:80-131 | Throws exactly when `getInflationData` throws, with the same error. Otherwise the dates come out in order (as given or swapped), `monthlyRates` is the walk over the table, `months` is its length, total inflation is (compound − 1) × 100, and the final price is 100 × compound with the increase above 100. |
| `InflationService.CollectMonthlyRates` | src/Service/InflationService.php:90-104 | The `while` loop collects exactly the walk from the start to the end date. The invariant: the rates collected so far, followed by the walk from the current date, make up the whole walk. |
| `InflationService.CompoundRate` | src/Service/InflationService.php:106-110 | The `foreach` yields the product of (1 + rate/100) over the collected months, in their order. |
| `InflationService.WalkStep` | src/Service/InflationService.php:94-104 | One turn of the loop: the month of the current date contributes its rate when the table has it, and the walk continues from the 1st of the next month. |
| `InflationService.VisitedFirstDays` | src/Service/InflationService.php:103 | After the start date, every date the walk visits is the 1st of the following months in turn. |
| `InflationService.VisitedStops` | src/Service/InflationService.php:94 | A walk that visits any date stops at the right month: the 1st of the month after the last one visited is not before the end date. |
| `InflationService.VisitedShape` | src/Service/InflationService.php:91-104 | The walk runs exactly when the start is before the end. It visits the start date first, then the 1st of each following month in turn, and stops at the first month whose 1st is not before the end date. |
| `InflationService.WalkedMonths` | src/Service/InflationService.php:91-104 | A month is walked exactly when the start is before the end and the month is either the start month or a later month whose 1st is before the end date (both directions). |
| `InflationService.WalkProperties` | src/Service/InflationService.php:94-102 | `monthlyRates` holds only walked months the table has, each with the table's rate. It holds every walked month the table has, in strictly increasing month order, and it is empty for equal dates. |
| `InflationService.SelectSound` | src/Service/InflationService.php:97-101 | Every entry taken is one of the walked keys and carries the table's rate for it. |
| `InflationService.SelectComplete` | src/Service/InflationService.php:97-101 | Every walked key that the table has gets an entry. |
| `InflationService.SelectOrdered` | src/Service/InflationService.php:97-101 | Keys walked in increasing order give entries in increasing order. |
| `InflationService.WalkExtends` | src/Service/InflationService.php:94-104 | Moving the end date later only appends months to `monthlyRates`. |
| `InflationService.CompoundAppend` | src/Service/InflationService.php:107-110 | Compounding over two consecutive stretches of months multiplies their compound rates. |
| `InflationService.CompoundAtLeastOne` | src/Service/InflationService.php:107-110 | Without a negative monthly rate, the compound rate is at least 1. |
| `InflationService.CalculationSymmetric` | src/Service/InflationService.php:83-85 | Calculating from a to b and from b to a give the same result. |
| `InflationService.CalculationWithoutDeflation` | src/Service/InflationService.php:106-115 | When no month in the data has a negative rate, the calculation succeeds, total inflation is not negative, and the final price is not below the reference price. |
| `Dates.Before` | src/Service/InflationService.php:83 | DateTime `<`: of two dates in real months, a date in an earlier month is before, and a date before another is not in a later month; no date is before itself. |
| `Dates.BeforeTotal` | src/Service/InflationService.php:83-85 | Two different dates are always ordered one way or the other. |
| `Dates.BeforeAsymmetric` | src/Twig/Components/InflationCalculatorComponent.php:57-60 | A date before another is not after it, so the swapped pair is in order. |
| `Dates.BeforeTransitive` | src/Service/InflationService.php:94 | DateTime `<` is transitive. |
| `Dates.MonthKey` | src/Service/InflationService.php:95 | `format('Y-m')` gives seven characters: four digits, a dash and two digits. |
| `Dates.MonthKeyOrder` | src/Service/InflationService.php:95 | The 'Y-m' keys of two months compare as strings in the order of the months. |
| `Dates.MonthKeyInjective` | src/Service/InflationService.php:95-97 | Two dates have the same 'Y-m' key exactly when they lie in the same month. |
| `Dates.MonthKeyLe` | src/Service/InflationService.php:95 | One month key is at most another, as strings, exactly when its month is not later. |
| `Dates.FirstOfNextMonth` | src/Service/InflationService.php:103 | Moves to the 1st of the month that follows, rolling December over into January of the next year. |
| `InflationService.GetAvailableDateRange` | src/Service/InflationService.php:136-156 | A failed fetch gives a null pair. Otherwise both bounds are months of the table, and every month lies between the first and the last in string order. The result equals `AvailableRange(fetched)`. |
| `StringOrder.Sort` | src/Service/InflationService.php:146 | `sort()` leaves the keys in ascending string order and a permutation of the original keys. |
| `StringOrder.Insert` | src/Service/InflationService.php:146 | One insertion step extends the sorted prefix by one element and keeps the multiset of keys. |
| `StringOrder.Smallest` | src/Service/InflationService.php:149 | `reset()` of the sorted keys: a key of the list that is at most every key. |
| `StringOrder.Largest` | src/Service/InflationService.php:150 | `end()` of the sorted keys: a key of the list that is at least every key. |
| `StringOrder.LexLess` | src/Service/InflationService.php:146 | The string order `sort()` uses is irreflexive: no string sorts before itself. |
| `StringOrder.LexLessPrefix` | src/Service/InflationService.php:146 | A proper prefix sorts before the longer string, and no string sorts before one of its own prefixes. |
| `StringOrder.LexLessTransitive` | src/Service/InflationService.php:146 | The string order `sort()` uses is transitive. |
| `StringOrder.LexLessTotal` | src/Service/InflationService.php:146 | The string order is total: two strings are equal or one is less than the other. |
| `InflationService.AvailableMonths` | src/Service/InflationService.php:161-169 | A failed fetch gives an empty list. Otherwise the list is non-empty, has no repeated month, and holds exactly the months some kept record carries. |
| `ServiceExamples.ThrowsWhenApiFails` | tests/Service/InflationServiceTest.php:14-34 | With the fetch failing, the calculation from 2024-01-01 to 2024-02-01 fails with the fetch error and its message. |
| `ServiceExamples.UsesApiData` | tests/Service/InflationServiceTest.php:36-60 | With rates 10.00 and 5.00 for January and February 2024, the calculation from 2024-01-01 to 2024-03-01 succeeds with source "EVDS API", 2 months and total inflation 15.5. |
| `ServiceExamples.ExampleTable` | tests/Service/InflationServiceTest.php:39-42 | The test's two records give the table 2024-01 → 10, 2024-02 → 5, in that order. |
| `InflationCalculatorComponent.InflationCalculator.constructor` | src/Twig/Components/InflationCalculatorComponent.php:24-45 | The component starts with no dates, result or error, and with the service's list of months. |
| `InflationCalculatorComponent.InflationCalculator.Calculate` | src/Twig/Components/InflationCalculatorComponent.php:48-102 | The `calculate` action sets the four live props to `CalculateOutcome` of the dates it found and leaves the month list alone. |
| `InflationCalculatorComponent.CalculateOutcome` | src/Twig/Components/InflationCalculatorComponent.php:48-102 | Exactly one of a result and an error is set afterwards, and the dates stay real calendar dates. |
| `InflationCalculatorComponent.InflationCalculator.Reset` | src/Twig/Components/InflationCalculatorComponent.php:104-111 | The `reset` action clears both dates, the result and the error, and keeps the month list. |
| `InflationCalculatorComponent.MissingDatesOutcome` | src/Twig/Components/InflationCalculatorComponent.php:51-55 | The missing-dates error is shown exactly when a date is unset, and the dates are then left as they were. |
| `InflationCalculatorComponent.Falsy` | src/Twig/Components/InflationCalculatorComponent.php:65 | PHP's `!$s` on a range bound: true for "" and "0", and never for a 'Y-m' month key. |
| `InflationCalculatorComponent.RangeUsable` | src/Twig/Components/InflationCalculatorComponent.php:65 | A range whose two bounds are 'Y-m' month keys passes the check. |
| `InflationCalculatorComponent.RangeUsableForMonthKeys` | src/Twig/Components/InflationCalculatorComponent.php:62-69 | When every month of the data is a 'Y-m' key, the unavailable-data error is avoided exactly when the data loads. |
| `InflationCalculatorComponent.DatesOrderedOutcome` | src/Twig/Components/InflationCalculatorComponent.php:57-60 | With both dates set they come out in order: as given, or swapped when the start was after the end. |
| `InflationCalculatorComponent.OutcomeSymmetric` | src/Twig/Components/InflationCalculatorComponent.php:57-60 | The order in which the two dates are picked does not change the outcome. |
| `InflationCalculatorComponent.ResultOutcome` | src/Twig/Components/InflationCalculatorComponent.php:62-101 | A result is shown exactly when four checks pass: both range bounds are set and truthy, both parse, the ordered dates lie within them, and the service calculates. The result is then the service's result for the dates. |
| `InflationCalculatorComponent.NoCalculationFailureWithOneResponse` | src/Twig/Components/InflationCalculatorComponent.php:93-101 | With one EVDS response behind both service calls, the calculation-failure message never appears. |
| `Dates.CreateFromMonthKey` | src/Twig/Components/InflationCalculatorComponent.php:71-72 | Parsing with 'Y-m' succeeds only on text shaped as a month key, and on a real clock day it yields a real calendar date. |
| `Dates.CreateFromMonthKeyRoundTrip` | src/Twig/Components/InflationCalculatorComponent.php:71-72 | Parsing a month key back lands in that month on the clock's day, or runs over into the next month when the month is shorter. |
| `CalculatorFindings.TwoMonthsRange` | src/Service/InflationService.php:136-169 | For the test's response, the months are 2024-01 and 2024-02 and the date range runs from 2024-01 to 2024-02. |
| `CalculatorFindings.FirstDayRefused` | src/Twig/Components/InflationCalculatorComponent.php:71-91 | When the earliest month key parses to a date after the 1st of that month, the 1st of that month is refused as out of range. |
| `CalculatorFindings.FirstDayOfEarliestMonthRefused` | src/Twig/Components/InflationCalculatorComponent.php:71-91 | As written, on any day but the 1st, the 1st of the earliest month with data is refused as out of range, although that month is one of the available months. |
| `CalculatorFindings.EarliestMonthRefused` | src/Twig/Components/InflationCalculatorComponent.php:71-91 | With data for January and February 2024, picking 2024-01-01 to 2024-02-01 on any day from the 2nd to the 29th gives the out-of-range error, with the clock's day in both bounds. |
| `CalculatorFindings.WithinDataMonthsByMonth` | src/Twig/Components/InflationCalculatorComponent.php:80-81 | The corrected check, `WithinDataMonths`, passes exactly when the start date's month is not before the first month with data and the end date's month is not after the last, whatever the days. |
| `CalculatorFindings.DataMonthsAccepted` | src/Twig/Components/InflationCalculatorComponent.php:80-81 | Under the corrected check, dates in months that have data always pass. |
| `CalculatorFindings.EarlierMonthRefused` | src/Twig/Components/InflationCalculatorComponent.php:80-81 | Under the corrected check, a start date in a month before every month with data is still refused. |
| `CalculatorFindings.EarliestMonthAcceptedAsIntended` | src/Twig/Components/InflationCalculatorComponent.php:80-81 | The example the code refuses passes the corrected check. |

## Left out

- The EVDS HTTP client (`EvdsService`) is not part of this model: its response is the parameter `fetched`. A null result, an HTTP error and a transport error all appear as `None`.
- Cache lifetime and key: the cache is treated as transparent. The component's two service calls each take their own response, which covers a refetch between them.
- Floating point: rates and prices are reals, so IEEE rounding of the product and of the cast is not modelled.
- `ToFloat` reads an optional sign, digits and an optional fraction. Leading whitespace, exponents and other forms of PHP's numeric strings are not modelled, and neither are JSON numbers in place of the rate string.
- `number_format` strings in the result (`totalInflation`, `priceIncrease`, `basePriceExample`, `finalPriceExample`) and the 'Y-m-d' strings of the dates: the result holds the numeric values and the dates themselves.
- The time of day of `DateTime` values: dates compare by year, month and day only. Years outside 0 to 9999 are not modelled.
- PHP turns array keys that are decimal integer strings into integers, and `sort()` compares numeric strings as numbers. EVDS month keys ("2024-01") are neither, so keys are modelled as strings ordered byte by byte.
- `Dates.CreateFromMonthKey` accepts only four year digits, a dash and two month digits, with months 01 to 12. PHP's parser also takes shorter fields and month 00 or 13 and above, which run over into a neighbouring year; those inputs are not modelled. In `Calculate` the parse is the parameter `fromMonthKey`, so none of this restricts the component's model.
- The translated message texts of the component: errors are modelled by kind, and the out-of-range error carries its two bounds.
- The Note entity, its admin controller and live form, and the inflation controller are not part of this model.

## Findings

| source | as written | input that shows it | evidently intended | confidence | as-written member | corrected member |
|---|---|---|---|---|---|---|
| src/Twig/Components/InflationCalculatorComponent.php:71-81 | The range bounds come from `createFromFormat('Y-m', ...)`, which takes the day (and time) from the clock, so the lower bound is that day of the earliest month with data. | Data for 2024-01 and 2024-02. Dates 2024-01-01 and 2024-02-01, picked on any day from the 2nd to the 29th of a month. The result is the out-of-range error, although both months have data. | Dates in any month that has data are accepted: compare the months of the picked dates with the first and last month keys. | not executed | `CalculatorFindings.EarliestMonthRefused` | `CalculatorFindings.DataMonthsAccepted` |

`CalculatorFindings.FirstDayOfEarliestMonthRefused` states the as-written behaviour for any earliest month. `CalculatorFindings.WithinDataMonths` is the corrected check. `CalculatorFindings.EarliestMonthAcceptedAsIntended` shows that the refused example passes it. The component's `Calculate` keeps the check as written, since it models the source.
