/**
 * The JSON value tree (`serde_json::Value`) as far as the core reads or builds it.
 * Objects are maps from keys to values, as `serde_json::Map` is; its rendering to
 * text is not part of this model and is passed around as a function where needed.
 */
module Json {
  import opened Wrappers

  datatype Value =
    | Null
    | Bool(b: bool)
    | Int(i: int)
    | Num(r: real)
    | Str(s: string)
    | Arr(items: seq<Value>)
    | Obj(fields: map<string, Value>)

  /** `value.get(key)`: the field of an object, `None` for a missing key or a non-object. */
  function Get(v: Value, key: string): Option<Value>
  {
    if v.Obj? && key in v.fields then Some(v.fields[key]) else None
  }

  /** `value.as_array()`. */
  function AsArray(v: Option<Value>): Option<seq<Value>>
  {
    if v.Some? && v.value.Arr? then Some(v.value.items) else None
  }

  /** `value.as_str()`. */
  function AsStr(v: Option<Value>): Option<string>
  {
    if v.Some? && v.value.Str? then Some(v.value.s) else None
  }

  /** `Option<T>` serialised by serde: `null` for `None`. */
  function OptInt(o: Option<int>): Value
  {
    if o.Some? then Int(o.value) else Null
  }
}
