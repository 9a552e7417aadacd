/** JSON documents as Python's `json` reads them, without floating point. */
module Json {
  import opened Common

  datatype Json = Null | Bool(b: bool) | Num(n: int) | Str(s: string) | Arr(items: seq<Json>) | Obj(fields: map<string, Json>)

  type Fields = map<string, Json>

  /** `d.get(key)`: a JSON null reads as None too. */
  function Get(d: Fields, key: string): Option<Json> {
    if key in d && d[key] != Null then Some(d[key]) else None
  }
}
