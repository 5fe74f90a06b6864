/** JSON values as `serde_json::Value` holds them; numbers are integers here. */
module Json {
  import opened Wrappers

  datatype Value = Null | Bool(b: bool) | Num(n: int) | Str(s: string) | Arr(items: seq<Value>) | Obj(fields: map<string, Value>)

  /** `value.get(key)`: the member of an object, None for a missing key or a value that is not an object. */
  function Get(v: Value, key: string): (r: Option<Value>)
    ensures r.Some? <==> v.Obj? && key in v.fields
    ensures r.Some? ==> r.value == v.fields[key]
  {
    if v.Obj? && key in v.fields then Some(v.fields[key]) else None
  }

  /** `value.get(key).and_then(|v| v.as_str())`: a string member, None for a missing or non-string one. */
  function GetStr(v: Value, key: string): (r: Option<string>)
    ensures r.Some? <==> Get(v, key).Some? && Get(v, key).value.Str?
    ensures r.Some? ==> Get(v, key).value == Str(r.value)
  {
    match Get(v, key)
    case Some(Str(s)) => Some(s)
    case _ => None
  }
}
