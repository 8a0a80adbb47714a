/**
 * JSON documents as both halves of the system exchange them: the Python
 * side decodes them with `json`/Flask, the firmware with ArduinoJson.
 * Integers and non-integral numbers are kept apart, as both decoders do.
 */
module JsonValue {
  datatype Json =
    | JNull
    | JBool(b: bool)
    | JInt(i: int)
    | JFloat(f: real)
    | JStr(s: string)
    | JList(items: seq<Json>)
    | JObject(fields: map<string, Json>)

  /** `obj.get(k, default)` on a decoded object. */
  function Lookup(fields: map<string, Json>, k: string, default: Json): Json {
    if k in fields then fields[k] else default
  }
}
