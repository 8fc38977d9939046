/** Decoded JSON values and the JavaScript tests that the structural type
    guards apply to them. A property that an object lacks is a key absent
    from its map. */
module Json {
  import opened Wrappers

  /** A value produced by `JSON.parse`. Numbers are integers in this model. */
  datatype Json =
    | JNull
    | JBool(b: bool)
    | JNum(n: int)
    | JStr(s: string)
    | JArr(items: seq<Json>)
    | JObj(fields: map<string, Json>)

  /** A decoded JSON object: a queue payload, a webhook body. */
  type JsonObject = map<string, Json>

  /** JavaScript truthiness: `null`, `false`, `0` and `""` are falsy. */
  predicate Truthy(v: Json) {
    match v
    case JNull => false
    case JBool(b) => b
    case JNum(n) => n != 0
    case JStr(s) => s != ""
    case JArr(_) => true
    case JObj(_) => true
  }

  /** `typeof v === "object"`, which also holds of `null` and of arrays. */
  predicate TypeofObject(v: Json) {
    v.JNull? || v.JArr? || v.JObj?
  }

  /** The guards' opening test `!v || typeof v !== "object"` fails exactly
      for objects and arrays. */
  lemma ObjectTestPasses(v: Json)
    ensures (Truthy(v) && TypeofObject(v)) <==> (v.JObj? || v.JArr?)
  {
  }

  /** The property read `v.key`; `None` is `undefined`. A parsed array has
      no property under the names read in this model. */
  function Get(v: Json, key: string): (p: Option<Json>)
    ensures p.Some? ==> v.JObj? && key in v.fields && p.value == v.fields[key]
    ensures v.JObj? && key in v.fields ==> p.Some?
  {
    if v.JObj? && key in v.fields then Some(v.fields[key]) else None
  }

  /** `typeof p === "string"` */
  predicate IsString(p: Option<Json>) {
    p.Some? && p.value.JStr?
  }

  /** `typeof p === "number"` */
  predicate IsNumber(p: Option<Json>) {
    p.Some? && p.value.JNum?
  }
}
