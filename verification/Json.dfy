/** Decoded JSON documents, as `serde_json::Value` and as the browser's own values. */
module Json {
  import opened Wrappers

  /**
   Object fields are listed in the order they are walked, with distinct keys; a number is carried as the
   text it prints as.
   */
  datatype Value =
    | Null
    | Bool(b: bool)
    | Number(text: string)
    | String(s: string)
    | Array(items: seq<Value>)
    | Object(fields: seq<(string, Value)>)

  /** `value.get(key)`: a field of an object, nothing of anything else. */
  function Member(v: Value, key: string): Option<Value> {
    if v.Object? then Get(v.fields, key) else None
  }

  /** `as_str` */
  function AsText(v: Option<Value>): Option<string> {
    if v.Some? && v.value.String? then Some(v.value.s) else None
  }

  /** A list of texts as a JSON array's items. */
  function Strings(texts: seq<string>): seq<Value> {
    seq(|texts|, i requires 0 <= i < |texts| => String(texts[i]))
  }

  /** The text of a scalar: `to_string` on numbers, booleans, null and strings. */
  function ScalarText(v: Value): string
    requires !v.Array? && !v.Object?
  {
    match v
    case Null => "null"
    case Bool(b) => if b then "true" else "false"
    case Number(text) => text
    case String(s) => s
  }
}
