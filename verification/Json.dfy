/** JSON values, and the tests that the shape validators make on them. */
module Json {
  import opened Wrappers

  /** A number is an integer or has a fractional part. */
  datatype Json =
    | JNull
    | JBool(flag: bool)
    | JInt(number: int)
    | JFraction(digits: real)
    | JString(text: string)
    | JArray(elements: seq<Json>)
    | JObject(fields: map<string, Json>)

  /** Reading a property: absent ones are undefined on the server. */
  function Field(value: Json, name: string): Option<Json> {
    if value.JObject? && name in value.fields then Some(value.fields[name]) else None
  }

  predicate HasExactKeys(value: Json, names: set<string>) {
    value.JObject? && value.fields.Keys == names
  }

  function Text(value: Option<Json>): Option<string> {
    if value.Some? && value.value.JString? then Some(value.value.text) else None
  }

  predicate HasText(value: Option<Json>, text: string) {
    value == Some(JString(text))
  }
}
