/** JSON values as the driver exchanges them, with exact numbers. */
module Json {
  import opened Wrappers

  datatype Json =
    | Null
    | Bool(b: bool)
    | Num(r: real)
    | Str(s: string)
    | List(items: seq<Json>)
    | Map(fields: map<string, Json>)

  type Fields = map<string, Json>

  /** The value at a path of keys through mappings. */
  function At(m: Fields, path: seq<string>): Option<Json>
    requires path != []
    decreases |path|
  {
    if path[0] !in m then None
    else if |path| == 1 then Some(m[path[0]])
    else if m[path[0]].Map? then At(m[path[0]].fields, path[1..])
    else None
  }
}
