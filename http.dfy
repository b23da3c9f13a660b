/** What the transport sends and what it gets back. */
module Http {
  import opened Wrappers
  import opened Json

  /**
   * The parts of a `requests` response the client reads.  `json` is the outcome
   * of `response.json()`: Some(body), or None when decoding raises ValueError.
   */
  datatype Response = Response(
    url: string,
    statusCode: int,
    reason: string,
    text: string,
    headers: map<string, string>,
    json: Option<Json>)

  /** One outbound call: `requests.get(url, params=...)` or `requests.post(url, json=...)`. */
  datatype Request =
    | GetRequest(url: string, params: Option<map<string, Json>>)
    | PostRequest(url: string, payload: map<string, Json>)
}
