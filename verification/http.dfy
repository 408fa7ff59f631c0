/**
  Requests the pages issue and the outcomes the network hands back. The
  network is never modelled: every outcome is an input of the operation that
  awaits it.
 */
module Http {
  import opened JsValues
  import opened FormEncoding

  datatype Method = GET | POST | PUT | PATCH | DELETE

  datatype Body = NoBody | Json(value: Value) | Multipart(entries: Entries)

  datatype Request = Request(verb: Method, url: string, body: Body)

  /**
    An axios call: it resolves with the parsed response body, or rejects on a
    network failure or any status outside 2xx.
   */
  datatype AxiosOutcome = Resolved(data: Value) | Rejected

  /** A `fetch` response; `body` is what `response.json()` yields, `None` when it is not JSON. */
  datatype Response = Response(status: int, body: Option<Value>)

  /** A `fetch` call: it resolves with any status and rejects only on a network failure. */
  datatype FetchOutcome = Answered(response: Response) | NetworkFailure

  /** `response.ok` */
  predicate IsOk(status: int) {
    200 <= status <= 299
  }

  type Headers = seq<(string, string)>

  /** A request together with the headers it is sent with. */
  datatype Call = Call(request: Request, headers: Headers)

  /** The header the multipart uploads set explicitly. */
  const MultipartHeaders: Headers := [("Content-Type", "multipart/form-data")]

  /** `Bearer ${token}` where the token is what `getItem` returned, possibly `null`. */
  function Bearer(token: Value): string {
    "Bearer " + ToJsString(token)
  }

  /** Base of the REST API as the axios-based pages address it. */
  const ApiRoot := "http://127.0.0.1:8000/api/"
}
