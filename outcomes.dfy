/** Failure kinds, results and server replies shared by the client's modules. */
module Outcomes {

  /** The ways an operation of the client can fail, one per exception the client lets escape. */
  datatype Error =
    | AddListFailed   // the list registration answered with a non-ok status
    | FetchFailed     // an enrichment request answered with a non-ok status
    | LibraryMissing  // the parsed response has no entry for the requested library (KeyError)
    | ColumnMissing   // a record is shorter than a column that is read from it (IndexError)
    | NotNumeric      // a sort key is not a number

  datatype Result<T> = Success(value: T) | Failure(error: Error)

  datatype Option<T> = None | Some(value: T) {
    function GetOr(default: T): T {
      if Some? then value else default
    }
  }

  /** What the server answers to one request: `response.ok` and, when it holds, the body. */
  datatype Reply<T> = NotOk | Ok(body: T)
}
