/** Failure-carrying values shared by the three programs. */
module Common {

  datatype Option<T> = None | Some(value: T) {
    /** The value if present, otherwise `default` (Python's `dict.get(key, default)`). */
    function GetOr(default: T): T {
      match this
      case Some(v) => v
      case None => default
    }
  }

  /** The exceptions the programs can raise; each one ends the program without a chart. */
  datatype Error =
    | EndOfInput                 // `input()` raises EOFError: the sentinel never arrived
    | UnknownQuestion(number: int) // KeyError: a missed number that is not a key of the question map
    | MissingTypeField           // KeyError('type'): a surviving error row without a "type"
    | EmptyMaxArgument           // ValueError: `max()` of an empty list of totals

  datatype Result<T> = Ok(value: T) | Err(error: Error)
}
