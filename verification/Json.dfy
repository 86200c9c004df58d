/** JSON values as `serde_json::Value` and Python's `json` see them. */
module Json {
  import opened Wrappers

  datatype Json =
    | JNull
    | JBool(flag: bool)
    | JInt(number: int)
    | JReal(float: real)
    | JString(text: string)
    | JArray(items: seq<Json>)
    | JObject(fields: map<string, Json>)
  {
    /** `value.get(key)`: nothing unless the value is an object with that key. */
    function Get(key: string): Option<Json> {
      if JObject? && key in fields then Some(fields[key]) else None
    }

    /** `value.get(key).and_then(Value::as_str)`. */
    function GetString(key: string): Option<string> {
      match Get(key)
      case Some(JString(s)) => Some(s)
      case _ => None
    }
  }
}
