/**
 * The library's exception hierarchy.  Every exception it raises is a
 * QuadrigaError, so the base class is the datatype and each subclass one of
 * its constructors.
 */
module Exceptions {
  import opened Wrappers
  import opened Json
  import opened Http

  datatype QuadrigaError =
      /** A failed request: the response's context plus the exchange's error code, if any. */
    | RequestError(
        url: string,
        body: string,
        headers: map<string, string>,
        httpCode: int,
        errorCode: Option<Json>,
        errorMsg: string)
      /** A currency outside the supported set, with the set it was checked against. */
    | InvalidCurrencyError(currency: string, choices: set<string>)
      /** An order book outside the supported set, with the set it was checked against. */
    | InvalidOrderBookError(book: string, choices: set<string>)

  /** Python built-in exceptions that escape the library uncaught. */
  datatype BuiltinError = TypeError | AttributeError

  /**
   * How a Python call ends: it returns a value, raises one of the library's
   * exceptions, or lets a built-in exception escape.
   */
  datatype Outcome<+T> =
    | Returned(value: T)
    | Raised(error: QuadrigaError)
    | Crashed(builtin: BuiltinError)

  /**
   * `RequestError(response, message, error_code=None)`.  The exception's text,
   * `str(e)`, is the message it was built with, kept as `errorMsg`.
   */
  function NewRequestError(response: Response, message: string, errorCode: Option<Json> := None): (e: QuadrigaError)
    ensures e.RequestError?
    ensures e.url == response.url && e.body == response.text && e.headers == response.headers
    ensures e.httpCode == response.statusCode
    ensures e.errorCode == errorCode && e.errorMsg == message
  {
    RequestError(response.url, response.text, response.headers, response.statusCode, errorCode, message)
  }
}
