/** JSON values as serde_json presents them. A Rust string is modelled by its UTF-8 bytes, one char per byte. */
module Json {
  import opened Wrappers

  datatype Json =
    | Null
    | Bool(b: bool)
    | Num(n: int)
    | Str(s: string)
    | Arr(items: seq<Json>)
    | Obj(fields: map<string, Json>)

  /** Value::get with a key: only objects have named members. */
  function Field(v: Json, name: string): Option<Json> {
    if v.Obj? && name in v.fields then Some(v.fields[name]) else None
  }

  function AsString(v: Option<Json>): Option<string> {
    if v.Some? && v.value.Str? then Some(v.value.s) else None
  }

  function StringField(v: Json, name: string): Option<string> {
    AsString(Field(v, name))
  }

  predicate HasError(v: Json) {
    Field(v, "error").Some?
  }

  function Method(v: Json): Option<string> {
    StringField(v, "method")
  }

  /** Replaces one member of an object. */
  function With(v: Json, name: string, x: Json): Json
    requires v.Obj?
  {
    Obj(v.fields[name := x])
  }

  /** object_field: the object stored under name, made empty when absent or null;
      None when v is not an object or the member is something else. */
  function ObjectField(v: Json, name: string): (r: Option<map<string, Json>>)
    ensures r.Some? ==> v.Obj?
  {
    if !v.Obj? then None
    else if name !in v.fields || v.fields[name].Null? then Some(map[])
    else if v.fields[name].Obj? then Some(v.fields[name].fields)
    else None
  }
}
