/** JSON values as `serde_json::Value` has them. Reading and printing JSON text is not modelled: a
    `Codec` stands for the library's two functions, and a proof that needs a law of theirs says so. */
module JsonValues {
  import opened Options

  datatype Json =
    | Null
    | Bool(b: bool)
    | Num(literal: string)
    | Str(s: string)
    | Arr(items: seq<Json>)
    | Obj(fields: map<string, Json>)

  datatype Codec = Codec(parse: string -> Option<Json>, render: Json -> string)

  /** `value.get(key)` */
  function Get(value: Json, key: string): (field: Option<Json>)
    ensures field.Some? ==> field.value < value
  {
    if value.Obj? && key in value.fields then Some(value.fields[key]) else None
  }

  function AsStr(value: Option<Json>): Option<string> {
    match value
    case Some(Str(s)) => Some(s)
    case _ => None
  }

  /** `value.get(key).and_then(Value::as_str)` */
  function GetStr(value: Json, key: string): Option<string> {
    AsStr(Get(value, key))
  }

  /** `value.get(key).and_then(Value::as_array)`, the empty array when there is none. */
  function GetItems(value: Json, key: string): (items: seq<Json>)
    ensures forall i :: 0 <= i < |items| ==> items[i] < value
  {
    match Get(value, key)
    case Some(Arr(items)) => items
    case _ => []
  }

  lemma {:induction false} FieldOfSum(a: map<string, Json>, b: map<string, Json>, key: string)
    ensures Get(Obj(a + b), key) == if key in b then Some(b[key]) else Get(Obj(a), key)
  {
  }
}
