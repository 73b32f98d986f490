/**
 * What the two front-end pages exchange with the back end. The HTTP calls
 * themselves are not modelled: a call is split into the request the page
 * sends and the outcome it later receives.
 */
module Http {

  /** The file the `<input type="file">` element handed over. */
  datatype Upload = Upload(name: string)

  /** How an awaited `axios.post` ends: with the response body, or by throwing. */
  datatype Outcome<+T> = Success(payload: T) | Failure
}
