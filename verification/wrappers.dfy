/** Small value types shared by the rest of the model. */
module Wrappers {

  /** An optional value. */
  datatype Option<+T> = None | Some(value: T) {

    /** The value, or `default` when there is none. */
    function GetOr(default: T): T {
      if Some? then value else default
    }
  }

  /** The outcome of an operation that can fail with an error of type `E`. */
  datatype Result<+T, +E> = Success(value: T) | Failure(error: E)

  /**
   * A key of a JSON object as the Python code sees it: the key is not there,
   * the key is there with the value null, or the key is there with a value.
   * The scripts treat the first two alike in some places (`d.get(k) or {}`)
   * and differently in others (`d.get(k, "")` yields None for a null value).
   */
  datatype Slot<+T> = Absent | Null | Given(value: T)

  /** A JSON value that the code passes along without looking inside it. */
  datatype Json =
    | JNull
    | JBool(b: bool)
    | JNum(n: int)
    | JStr(s: string)
    | JArr(elems: seq<Json>)
    | JObj(fields: map<string, Json>)
}
