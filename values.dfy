/** The Python values that flow through the prediction pipeline, and the
    exceptions it raises. */
module Values {
  import opened Wrappers

  /** A latitude or longitude as read from the airport table. Its numeric
      value is never computed with, so it is left abstract. */
  type Coord(==)

  /** A Python value as it sits in a keyword argument or a slot of the
      feature list: an int, a str, a coordinate number, or None. */
  datatype Value = Int(i: int) | Str(s: string) | Num(c: Coord) | Null

  /** The exceptions raised on the paths that are modelled. */
  datatype Error =
    | KeyError(key: string)          // a missing form field or keyword argument
    | ValueError                     // int(), str.split unpacking or datetime.date rejected the text,
                                     // or LabelEncoder.transform met an unseen label
    | OverflowError                  // datetime.date got a component outside the C int range
    | AttributeError(attr: string)   // a method called on an artifact that is still None
    | LoadError(file: string)        // an artifact file could not be opened or unpickled

  /** `d[key]` on a dict with string keys (a submitted form, keyword
      arguments); a missing key raises a KeyError. */
  function Lookup<V>(d: map<string, V>, key: string): (r: Result<V, Error>)
    ensures r.Success? <==> key in d
    ensures r.Success? ==> r.value == d[key]
    ensures r.Failure? ==> r.error == KeyError(key)
  {
    if key in d then Success(d[key]) else Failure(KeyError(key))
  }
}
