/** Option and Result, with the Python exceptions the modelled code can raise. */
module Wrappers {

  datatype Option<+T> = None | Some(value: T)

  datatype Result<+R> = Success(value: R) | Failure(error: PyError)

  /** The exceptions that escape (or, for Video, are caught inside) the modelled code. */
  datatype PyError =
    | IndexError    // `response['items'][0]` on an empty `items` list
    | TypeError     // `None["id"]`: no best video was selected
    | ISO8601Error  // `isodate.parse_duration` rejected a duration string
}
