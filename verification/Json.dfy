/** JSON values as the kernel handles them; a number is kept as its shortest text. */
module Json {
  import opened Wrappers

  datatype Value =
    | Null
    | Bool(b: bool)
    | Num(text: string)
    | Str(s: string)
    | Arr(items: seq<Value>)
    | Obj(members: map<string, Value>)

  function Get(v: Value, key: string): Option<Value>
  {
    if v.Obj? && key in v.members then Some(v.members[key]) else None
  }

  function AsStr(v: Option<Value>): Option<string>
  {
    if v.Some? && v.value.Str? then Some(v.value.s) else None
  }

  function StrOr(v: Option<Value>, default: string): string
  {
    var s := AsStr(v);
    if s.Some? then s.value else default
  }
}
