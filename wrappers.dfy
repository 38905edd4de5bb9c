/** Failure-carrying results shared by every module of the model. */
module Wrappers {

  /** The exceptions the modelled Python code can raise on a bad input. */
  datatype PyError =
    | IndexError   // an index outside a list, array or string
    | KeyError     // a dictionary lookup of a missing key
    | ValueError   // a shape mismatch or an unparsable integer
    | TypeError    // an operation applied to a value of the wrong kind

  /** The value a modelled call returns, or the exception it raises. */
  datatype Result<+T> = Ok(value: T) | Err(error: PyError)

  datatype Option<+T> = None | Some(value: T)

  /** Python list indexing into a list of length len: negative indices count from the end,
    * anything else outside the list is None (an IndexError). */
  function PyIndex(idx: int, len: nat): (r: Option<nat>)
    ensures r.Some? <==> -(len as int) <= idx < len
    ensures r.Some? ==> r.value < len && (r.value == idx || r.value == idx + len)
  {
    if 0 <= idx < len then Some(idx) else if -(len as int) <= idx < 0 then Some(idx + len) else None
  }
}
