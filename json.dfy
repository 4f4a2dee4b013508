/** Parsed JSON values, as `json.loads` hands them to the scheduler. */
module Json {

  /** A JSON value. Objects are maps, since `json.loads` keeps the last of
      any duplicated key; numbers are reals, covering both ints and floats. */
  datatype Json =
    | JNull
    | JBool(b: bool)
    | JNumber(n: real)
    | JString(s: string)
    | JArray(items: seq<Json>)
    | JObject(fields: map<string, Json>)

  /** The planning oracle's raw reply after `json.loads`: a value, or a decode error. */
  datatype Payload = Malformed | Parsed(value: Json)

  /** Python truthiness of the value `json.loads` produces. */
  predicate Truthy(v: Json)
  {
    match v
    case JNull => false
    case JBool(b) => b
    case JNumber(n) => n != 0.0
    case JString(s) => s != ""
    case JArray(items) => items != []
    case JObject(fields) => fields != map[]
  }

  /** `d.get(key, default)` on a dict. */
  function Get(fields: map<string, Json>, key: string, default: Json): Json
  {
    if key in fields then fields[key] else default
  }
}
