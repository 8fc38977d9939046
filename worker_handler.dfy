/** The worker's queue-message body parser. */
module WorkerHandler {
  import opened Wrappers
  import opened Json

  /** `JSON.parse`, as the value it gives for each text (`None` where it throws). */
  type JsonParser = string -> Option<Json>

  /** `parseRecordBody`: the body's JSON object, or `{}` for an absent or
      empty body, a body that is not JSON, or JSON that is not an object. */
  function ParseRecordBody(body: Option<string>, parse: JsonParser): (payload: JsonObject)
  {
    if body.None? || body.value == "" then map[]
    else
      match parse(body.value)
      case None => map[]
      case Some(parsed) =>
        if Truthy(parsed) && TypeofObject(parsed) && !parsed.JArr? then parsed.fields
        else map[]
  }

  /** A non-empty body that parses to an object yields exactly that object. */
  lemma ObjectBodyIsReturned(body: string, parse: JsonParser, fields: JsonObject)
    requires body != "" && parse(body) == Some(JObj(fields))
    ensures ParseRecordBody(Some(body), parse) == fields
  {
  }

  /** Every other body degrades to `{}`: absent, empty, unparsable, or
      parsed to `null`, a primitive or an array. */
  lemma OtherBodiesDegrade(body: Option<string>, parse: JsonParser)
    requires body.None? || body.value == "" || parse(body.value).None? || !parse(body.value).value.JObj?
    ensures ParseRecordBody(body, parse) == map[]
  {
  }

  /** The parser never invents content: a non-empty result is the object the
      body parses to. */
  lemma NonEmptyPayloadIsParsed(body: Option<string>, parse: JsonParser)
    requires ParseRecordBody(body, parse) != map[]
    ensures body.Some? && body.value != ""
    ensures parse(body.value) == Some(JObj(ParseRecordBody(body, parse)))
  {
  }
}
