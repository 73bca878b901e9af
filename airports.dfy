/** The airport coordinate lookup: a read-only table from airport code to
    a record with a latitude and a longitude, and a lookup that turns
    every miss into a pair of Nones instead of an exception. */
module Airports {
  import opened Values

  /** The JSON object stored next to the application: airport code to a
      record of named fields ("lat", "long", ...). */
  type AirportTable = map<string, map<string, Coord>>

  /** `code` names a record in `table` that has both coordinates. */
  predicate Known(table: AirportTable, code: Value)
  {
    code.Str? && code.s in table && "lat" in table[code.s] && "long" in table[code.s]
  }

  /** `Predictor._add_long_lat`: the record's (lat, long) on a hit; on any
      failure (the code is not a key, or the record lacks a field)
      (None, None), never an exception. */
  function AddLongLat(table: AirportTable, code: Value): (r: (Value, Value))
    ensures Known(table, code) ==> r == (Num(table[code.s]["lat"]), Num(table[code.s]["long"]))
    ensures !Known(table, code) ==> r == (Null, Null)
  {
    if code.Str? && code.s in table then
      var airport := table[code.s];
      if "lat" in airport && "long" in airport then (Num(airport["lat"]), Num(airport["long"]))
      else (Null, Null)
    else (Null, Null)
  }

  /** Both coordinates are found or neither is: a record with a latitude
      but no longitude still yields two Nones. */
  lemma BothOrNeither(table: AirportTable, code: Value)
    ensures AddLongLat(table, code).0.Null? <==> AddLongLat(table, code).1.Null?
    ensures AddLongLat(table, code).0.Num? <==> Known(table, code)
  {
  }

  /** The lookup depends only on the looked-up code's own record: adding
      or replacing another airport's record changes nothing for it. */
  lemma OtherRecordsIrrelevant(table: AirportTable, other: string, record: map<string, Coord>, code: Value)
    requires code != Str(other)
    ensures AddLongLat(table[other := record], code) == AddLongLat(table, code)
  {
  }
}
