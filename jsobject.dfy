/** JavaScript values and plain objects, as far as the Redux reducers use them.
    A plain object is a finite map from property names to values; the object
    spread `{ ...obj, key: v }` is a map update. */
module JsObject {
  import opened Options

  /** The JavaScript values a reducer stores or receives as a payload.
      `StyleConst(name)` stands for a colour constant exported by the
      application's style sheet (its literal value is not part of this model). */
  datatype Value =
    | Undefined
    | Null
    | Bool(b: bool)
    | Num(n: int)
    | Str(s: string)
    | StyleConst(name: string)

  type Obj = map<string, Value>

  /** A Redux action: its `type` string and its `payload`. */
  datatype Action = Action(actionType: string, payload: Value)

  /** `{ ...obj, key: v }`: a fresh object with every property of `obj`,
      except that `key` now holds `v`. */
  function SpreadWith(obj: Obj, key: string, v: Value): (r: Obj)
    ensures key in r && r[key] == v
    ensures r.Keys == obj.Keys + {key}
    ensures forall k :: k in obj && k != key ==> r[k] == obj[k]
  {
    obj[key := v]
  }

  /** A default parameter `(state = init)`: applies only when the argument
      is `undefined`. */
  function OrDefault(state: Option<Obj>, init: Obj): (r: Obj)
    ensures state.None? ==> r == init
    ensures state.Some? ==> r == state.value
  {
    match state
    case None => init
    case Some(s) => s
  }
}
