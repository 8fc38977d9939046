/** The slice of the Fetch API the clients use, as plain values: a request
    they build and the response the network gives back to it. */
module Http {
  import opened Wrappers
  import opened Json

  newtype byte = b: int | 0 <= b < 256

  /** An outgoing request: HTTP method (`verb`), URL, headers and (for form posts) the
      `application/x-www-form-urlencoded` fields in order. */
  datatype Request = Request(
    verb: string,
    url: string,
    headers: map<string, string>,
    form: seq<(string, string)>)

  /** A received response. `ok` is a 2xx status; `bodyText` is what
      `res.text()` resolves to; `json` is what `res.json()` resolves to
      (`None` when the body is not JSON); `bytes` is what
      `res.arrayBuffer()` resolves to. */
  datatype Response = Response(
    ok: bool,
    bodyText: string,
    json: Option<Json>,
    bytes: seq<byte>)

  /** The network, as the response it returns to each request. */
  type Network = Request -> Response
}

/** `fetchAndParse`: decode the body and admit it only through a guard. */
module FetchAndParse {
  import opened Wrappers
  import opened Json
  import opened Http

  function FetchAndParse(res: Response, guard: Json -> bool, errorMessage: string): (r: Result<Json>)
    ensures res.json.None? ==> r == Err(MalformedBody)
    ensures res.json.Some? && guard(res.json.value) ==> r == Ok(res.json.value)
    ensures res.json.Some? && !guard(res.json.value) ==> r == Err(Thrown(errorMessage))
  {
    match res.json
    case None => Err(MalformedBody)
    case Some(json) => if !guard(json) then Err(Thrown(errorMessage)) else Ok(json)
  }

  /** Every value it lets through satisfies the guard and is the decoded body. */
  lemma SuccessSatisfiesGuard(res: Response, guard: Json -> bool, errorMessage: string)
    requires FetchAndParse(res, guard, errorMessage).Ok?
    ensures guard(FetchAndParse(res, guard, errorMessage).value)
    ensures res.json == Some(FetchAndParse(res, guard, errorMessage).value)
  {
  }

  /** The outcome depends on the decoded body alone: not on the status, not
      on the text, not on the bytes. */
  lemma DependsOnlyOnJson(res1: Response, res2: Response, guard: Json -> bool, errorMessage: string)
    requires res1.json == res2.json
    ensures FetchAndParse(res1, guard, errorMessage) == FetchAndParse(res2, guard, errorMessage)
  {
  }
}
