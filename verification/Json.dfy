/** JSON values as parsed; numbers are the integers the label uses. */
module Json {
  datatype Json = Null | Bool(b: bool) | Num(n: int) | Str(s: string) | Arr(items: seq<Json>) | Obj(fields: map<string, Json>)
}
