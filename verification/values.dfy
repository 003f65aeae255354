/** Small value wrappers shared by the console's components. */
module Values {

  /** A value that may be absent: JavaScript's `null`/`undefined` versus a present value. */
  datatype Option<+T> = None | Some(value: T)

  /** What an awaited `fetch(...)` followed by `response.json()` produced: the parsed body,
      or any rejection (network error, parse error). The console never tells causes apart. */
  datatype Response<+T> = Success(data: T) | Failure
}
