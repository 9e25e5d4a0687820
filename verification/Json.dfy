/** JSON values as Python reads them; two dicts are equal whatever their key order. */
module Json {
  datatype Json =
    | Null
    | Bool(b: bool)
    | Number(n: real)
    | Str(s: string)
    | Arr(items: seq<Json>)
    | Obj(fields: map<string, Json>)
}
