/** JSON values as serde_json holds them, and its text form as an opaque pair of functions. */
module Json {
  import opened Prelude

  type Fields = map<string, Value>

  /** Numbers are kept as their literal. */
  datatype Value =
    | Null
    | Bool(truth: bool)
    | Number(literal: string)
    | String(text: string)
    | Array(items: seq<Value>)
    | Object(fields: Fields)

  /** serde_json::from_str and serde_json::to_string. */
  datatype Codec = Codec(parse: string -> Option<Value>, write: Value -> string)

  /** One step into a value: to a field, or to an element. */
  datatype Step = Key(name: string) | Index(i: nat)

  function Get(value: Value, key: string): Option<Value> {
    if value.Object? && key in value.fields then Some(value.fields[key]) else None
  }

  function AsString(value: Option<Value>): Option<string> {
    match value
    case Some(String(text)) => Some(text)
    case _ => None
  }

  /** The field's text, when the value is an object with a string there. */
  function StringAt(value: Value, key: string): Option<string> {
    AsString(Get(value, key))
  }

  function Kind(value: Option<Value>): string {
    match value
    case None => "missing"
    case Some(Null) => "null"
    case Some(Bool(_)) => "boolean"
    case Some(Number(_)) => "number"
    case Some(String(_)) => "string"
    case Some(Array(_)) => "array"
    case Some(Object(_)) => "object"
  }

  function With(value: Value, key: string, field: Value): Value
    requires value.Object?
  {
    Object(value.fields[key := field])
  }

  function Without(value: Value, key: string): Value
    requires value.Object?
  {
    Object(value.fields - {key})
  }
}
