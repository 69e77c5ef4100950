/** JSON values as the backend receives them in a request body. */
module Json {
  import opened Wrappers

  /** A parsed JSON value. Numbers are integers in this model. */
  datatype Value =
    | Null
    | Bool(b: bool)
    | Num(n: int)
    | Str(s: string)
    | Arr(items: seq<Value>)
    | Obj(fields: map<string, Value>)

  /** A request body: the own fields of the parsed JSON object. */
  type Body = map<string, Value>

  /** Property access `data.key`: the field's value, or `undefined` when it is absent. */
  function Get(data: Body, key: string): (r: Option<Value>)
    ensures r.Some? <==> key in data
    ensures r.Some? ==> r.value == data[key]
  {
    if key in data then Some(data[key]) else None
  }
}
