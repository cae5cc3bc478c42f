/** Failure-carrying values used across the model: Python's exceptions
    (IndexError, KeyError) become the Err/None cases of these types. */
module Results {

  datatype Option<+T> = None | Some(value: T)

  datatype Result<+T, +E> = Ok(value: T) | Err(error: E)

  /** Python's `xs[i]` on a list of length `len`: negative indices count
      from the end, anything outside `-len .. len-1` raises IndexError. */
  function PyIndex(i: int, len: nat): (r: Option<nat>)
    ensures r.Some? <==> -(len as int) <= i < len
    ensures r.Some? ==> r.value < len
    ensures r.Some? && 0 <= i ==> r.value == i
    ensures r.Some? && i < 0 ==> r.value == len + i
  {
    if 0 <= i < len then Some(i)
    else if -(len as int) <= i < 0 then Some(len + i)
    else None
  }
}
