/** The JavaScript values that arrive as parsed request bodies, queries and route
    parameters. Numbers are kept as reals; the sanitizer never inspects them. An
    object is the list of its own enumerable entries in `Object.entries` order. */
module Json {
  datatype Value =
    | Undefined
    | Null
    | Bool(b: bool)
    | Num(n: real)
    | Str(s: string)
    | Arr(items: seq<Value>)
    | Obj(fields: seq<(string, Value)>)
    | Other                                  // functions, symbols, bigints: typeof is not 'object'
  {
    /** JavaScript truthiness. */
    predicate Truthy() {
      match this
      case Undefined => false
      case Null => false
      case Bool(b) => b
      case Num(n) => n != 0.0
      case Str(s) => s != ""
      case _ => true
    }
  }
}
