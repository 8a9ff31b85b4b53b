/** Option and parse-outcome datatypes shared by every module of the model. */
module Wrappers {

  datatype Option<+T> = None | Some(value: T)

  /** The three outcomes of Django's date and datetime parsers:
      the text does not have the expected shape (the parser returns None),
      it has the shape but names no real date (the parser raises ValueError),
      or it denotes a value. */
  datatype Parsed<+T> = NoMatch | Malformed | Value(value: T)

  function Min(a: int, b: int): (r: int)
    ensures r <= a && r <= b && (r == a || r == b)
  {
    if a <= b then a else b
  }

  function Max(a: int, b: int): (r: int)
    ensures r >= a && r >= b && (r == a || r == b)
  {
    if a >= b then a else b
  }
}
