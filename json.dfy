/**
 * The JSON-like values that travel through request keyword arguments, tool
 * arguments and per-model overrides. Floating-point numbers are kept as their
 * decimal literal: the model never computes with them.
 */
module Json {

  datatype Value =
    | Null
    | Bool(b: bool)
    | Int(i: int)
    | Float(literal: string)
    | Str(s: string)
    | List(items: seq<Value>)
    | Object(fields: map<string, Value>)
}
