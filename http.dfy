/** What the two serverless functions see of an HTTP exchange: the parsed JSON of a
    request body, and the status, headers and JSON body of the response they send.
    Unlike the application state's values, arrays here keep their elements in order,
    because the functions iterate over them. */
module Http {
  import opened Common

  datatype Value =
    | Null
    | Bool(b: bool)
    | Number(n: real)
    | Str(s: string)
    | Array(items: seq<Value>)
    | Object(fields: map<string, Value>)

  /** JavaScript truthiness; `None` is `undefined`. */
  predicate Truthy(v: Option<Value>) {
    v.Some? &&
    match v.value
    case Null => false
    case Bool(b) => b
    case Number(n) => n != 0.0
    case Str(s) => s != ""
    case Array(_) => true
    case Object(_) => true
  }

  /** `v[key]` on a value that is not `null`, for the keys the functions read (none of
      which is a property of strings, numbers, booleans or arrays). */
  function Member(v: Value, key: string): Option<Value> {
    if v.Object? && key in v.fields then Some(v.fields[key]) else None
  }

  /** The value at a path of object keys, `None` when a step is missing. */
  function Path(v: Value, keys: seq<string>): Option<Value>
    decreases |keys|
  {
    if keys == [] then Some(v)
    else match Member(v, keys[0])
      case None => None
      case Some(w) => Path(w, keys[1..])
  }

  datatype Response = Response(status: nat, headers: map<string, seq<string>>, body: Value)

  /** `res.status(status).json(body)` */
  function Reply(status: nat, fields: map<string, Value>): Response {
    Response(status, map[], Object(fields))
  }

  /** A response whose body is `{ error: message }`. */
  function ErrorResponse(status: nat, message: string): Response {
    Reply(status, map["error" := Str(message)])
  }
}
