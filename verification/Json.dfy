/** JSON values. Objects are unordered maps; numbers are opaque to everything in this project but equality. */
module Json {
  import opened Prelude

  datatype Json =
    | Null
    | Bool(value: bool)
    | Number(number: real)
    | String(text: string)
    | Array(elements: seq<Json>)
    | Object(fields: Fields)

  type Fields = map<string, Json>

  function Get(fields: Fields, key: string): Option<Json> {
    if key in fields then Some(fields[key]) else None
  }

  /** The value at a path of object keys, if there is one. */
  function Read(value: Json, path: seq<string>): Option<Json>
    decreases |path|
  {
    if path == [] then Some(value)
    else if value.Object? && path[0] in value.fields then Read(value.fields[path[0]], path[1..])
    else None
  }
}
