/**
 * The PHP array `$formattedData`: an ordered map from month key to rate.
 * Writing to a key that is already present replaces its rate and keeps its
 * position; writing a new key appends it. `keys` is what `array_keys` returns.
 */
module RateTables {

  datatype RateTable = RateTable(keys: seq<string>, rates: map<string, real>)
  {
    /** Every key listed once, and listed exactly when it has a rate. */
    ghost predicate Valid()
    {
      && (forall i, j :: 0 <= i < j < |keys| ==> keys[i] != keys[j])
      && (forall k :: k in rates <==> k in keys)
    }
  }

  const Empty: RateTable := RateTable([], map[])

  /** `$table[$key] = $rate`. */
  function Put(t: RateTable, key: string, rate: real): (r: RateTable)
    ensures r.rates == t.rates[key := rate]
    ensures t.keys <= r.keys  // keys already present keep their positions
    ensures t.Valid() ==> r.Valid()
  {
    if key in t.rates then RateTable(t.keys, t.rates[key := rate])
    else RateTable(t.keys + [key], t.rates[key := rate])
  }
}
