/** Decoded JSON documents, as both `compare` and `changes` handle them. */
module Json {
  datatype Number = Int(i: int) | Float(r: real)

  datatype Json =
    | Null
    | Bool(b: bool)
    | Num(n: Number)
    | Str(s: string)
    | List(items: seq<Json>)
    | Obj(fields: map<string, Json>)

  /** How a value is printed. Only what is said about it is used, so the laws hold for any printing. */
  type Printer = Json -> string
}
